/** The validation at the end of a downsync: the version index made from the
    written folder is compared with the source version index. Only one side is
    walked; the other is looked up. */
module DownsyncValidation {

  datatype Content = Content(size: nat, hash: nat, permissions: nat)

  datatype Asset = Asset(path: string, content: Content)

  type VersionIndex = seq<Asset>

  datatype Verdict =
    | Accepted
    | CountMismatch
    | InvalidPath(i: nat)
    | SizeMismatch(i: nat)
    | HashMismatch(i: nat)
    | PermissionMismatch(i: nat)

  /** The part of an asset's content that is compared. */
  function Compared(c: Content, retainPermissions: bool): Content {
    if retainPermissions then c else c.(permissions := 0)
  }

  /** The tree of an index, as a map; of assets with the same path, the last. */
  function Tree(index: VersionIndex, retainPermissions: bool): map<string, Content> {
    if index == [] then map[]
    else
      var last := index[|index| - 1];
      Tree(index[..|index| - 1], retainPermissions)[last.path := Compared(last.content, retainPermissions)]
  }

  predicate DistinctPaths(index: VersionIndex) {
    forall i, k :: 0 <= i < k < |index| ==> index[i].path != index[k].path
  }

  function Paths(index: VersionIndex): set<string> {
    set asset | asset in index :: asset.path
  }

  lemma {:induction false} TreePaths(index: VersionIndex, retain: bool)
    ensures Tree(index, retain).Keys == Paths(index)
  {
    if index != [] {
      var n := |index| - 1;
      TreePaths(index[..n], retain);
      PathsNext(index);
    }
  }

  lemma PathsNext(index: VersionIndex)
    requires index != []
    ensures Paths(index) == Paths(index[..|index| - 1]) + {index[|index| - 1].path}
  {
    var n := |index| - 1;
    assert forall asset :: asset in index <==> asset in index[..n] || asset == index[n];
  }

  lemma DistinctNext(index: VersionIndex)
    requires index != []
    ensures var n := |index| - 1;
            DistinctPaths(index) <==> DistinctPaths(index[..n]) && index[n].path !in Paths(index[..n])
  {
    var n := |index| - 1;
    var rest := index[..n];
    assert forall i :: 0 <= i < n ==> rest[i] == index[i];
    if index[n].path !in Paths(rest) {
      forall i | 0 <= i < n
        ensures index[i].path != index[n].path
      {
        assert rest[i] in rest;
      }
    }
  }

  lemma {:induction false} PathsSize(index: VersionIndex)
    ensures |Paths(index)| <= |index|
    ensures |Paths(index)| == |index| <==> DistinctPaths(index)
  {
    if index != [] {
      var n := |index| - 1;
      PathsNext(index);
      DistinctNext(index);
      PathsSize(index[..n]);
      OneMore(Paths(index[..n]), index[n].path);
    }
  }

  lemma OneMore(a: set<string>, path: string)
    ensures |a + {path}| == |a| + if path in a then 0 else 1
  {
    assert path in a ==> a + {path} == a;
  }

  lemma {:induction false} TreeValues(index: VersionIndex, retain: bool, i: nat)
    requires DistinctPaths(index) && i < |index|
    ensures index[i].path in Tree(index, retain)
    ensures Tree(index, retain)[index[i].path] == Compared(index[i].content, retain)
  {
    if i < |index| - 1 {
      TreeValues(index[..|index| - 1], retain, i);
    }
  }

  /** Asset i of the written index is what the source tree says. */
  predicate Agrees(written: VersionIndex, tree: map<string, Content>, retain: bool, i: nat)
    requires i < |written|
  {
    written[i].path in tree && tree[written[i].path] == Compared(written[i].content, retain)
  }

  predicate AllAgree(source: VersionIndex, written: VersionIndex, retain: bool) {
    |written| == |source| && forall i :: 0 <= i < |written| ==> Agrees(written, Tree(source, retain), retain, i)
  }

  /** Walking one side is enough when its paths are distinct: as many distinct
      paths as the source has assets leave no source asset out. */
  lemma AgreementIsEquality(source: VersionIndex, written: VersionIndex, retain: bool)
    requires DistinctPaths(written)
    ensures AllAgree(source, written, retain)
            <==> DistinctPaths(source) && Tree(source, retain) == Tree(written, retain)
  {
    var s, w := Tree(source, retain), Tree(written, retain);
    TreePaths(source, retain);
    TreePaths(written, retain);
    PathsSize(source);
    PathsSize(written);
    forall i | 0 <= i < |written|
      ensures written[i].path in w && w[written[i].path] == Compared(written[i].content, retain)
    {
      TreeValues(written, retain, i);
    }
    if AllAgree(source, written, retain) {
      WrittenWithin(source, written, retain, |written|);
      assert written[..|written|] == written;
      SameSize(w.Keys, s.Keys);
    }
    if DistinctPaths(source) && s == w {
      assert forall i :: 0 <= i < |written| ==> Agrees(written, s, retain, i);
    }
  }

  lemma SameSize(a: set<string>, b: set<string>)
    requires a <= b && |b| <= |a|
    ensures a == b
  {
    assert b == a + (b - a);
  }

  /** With a repeated path on the walked side the comparison can pass although
      an asset is missing: nobody looks for "b". */
  lemma RepeatedPathsPass(c: Content, retain: bool)
    ensures AllAgree([Asset("a", c), Asset("b", c)], [Asset("a", c), Asset("a", c)], retain)
    ensures Tree([Asset("a", c), Asset("b", c)], retain) != Tree([Asset("a", c), Asset("a", c)], retain)
  {
    var source, written := [Asset("a", c), Asset("b", c)], [Asset("a", c), Asset("a", c)];
    assert source[..1] == [Asset("a", c)] && written[..1] == [Asset("a", c)] && source[..1][..0] == [];
    TreePaths(written, retain);
    assert "a"[0] != "b"[0];
    assert "b" in Tree(source, retain) && "b" !in Paths(written);
  }

  /** Whatever passes, passes rightly exactly if no source path is missing. */
  lemma PassedIsEqualExactly(source: VersionIndex, written: VersionIndex, retain: bool)
    requires AllAgree(source, written, retain)
    ensures Tree(source, retain) == Tree(written, retain) <==> Paths(source) <= Paths(written)
  {
    TreePaths(source, retain);
    TreePaths(written, retain);
    WrittenWithin(source, written, retain, |written|);
    assert written[..|written|] == written;
  }

  lemma {:induction false} WrittenWithin(source: VersionIndex, written: VersionIndex, retain: bool, n: nat)
    requires AllAgree(source, written, retain) && n <= |written|
    ensures var w := Tree(written[..n], retain);
            forall path :: path in w ==> path in Tree(source, retain) && w[path] == Tree(source, retain)[path]
  {
    if n > 0 {
      WrittenWithin(source, written, retain, n - 1);
      assert written[..n][..n - 1] == written[..n - 1];
      assert Agrees(written, Tree(source, retain), retain, n - 1);
    }
  }

  // ---------------------------------------------------------- asset by asset

  /** Same path, size and hash, and same permissions if they are retained. */
  predicate Same(a: Asset, b: Asset, retain: bool) {
    && a.path == b.path && a.content.size == b.content.size && a.content.hash == b.content.hash
    && (retain ==> a.content.permissions == b.content.permissions)
  }

  /** No later asset has the same path. */
  predicate LastAt(index: VersionIndex, k: nat)
    requires k < |index|
  {
    forall l :: k < l < |index| ==> index[l].path != index[k].path
  }

  /** The last source asset with the path of asset b is the same as b. */
  ghost predicate HasCounterpart(source: VersionIndex, b: Asset, retain: bool) {
    exists k :: 0 <= k < |source| && LastAt(source, k) && Same(source[k], b, retain)
  }

  lemma {:induction false} TreeAt(index: VersionIndex, retain: bool, k: nat)
    requires k < |index| && LastAt(index, k)
    ensures index[k].path in Tree(index, retain)
    ensures Tree(index, retain)[index[k].path] == Compared(index[k].content, retain)
  {
    if k < |index| - 1 {
      TreeAt(index[..|index| - 1], retain, k);
    }
  }

  lemma {:induction false} LastWithPath(index: VersionIndex, path: string) returns (k: nat)
    requires path in Paths(index)
    ensures k < |index| && LastAt(index, k) && index[k].path == path
  {
    var n := |index| - 1;
    if index[n].path == path {
      k := n;
    } else {
      PathsNext(index);
      k := LastWithPath(index[..n], path);
    }
  }

  lemma AgreesByAsset(source: VersionIndex, written: VersionIndex, retain: bool, i: nat)
    requires i < |written|
    ensures Agrees(written, Tree(source, retain), retain, i) <==> HasCounterpart(source, written[i], retain)
  {
    TreePaths(source, retain);
    if Agrees(written, Tree(source, retain), retain, i) {
      var k := LastWithPath(source, written[i].path);
      TreeAt(source, retain, k);
    }
    if HasCounterpart(source, written[i], retain) {
      var k :| 0 <= k < |source| && LastAt(source, k) && Same(source[k], written[i], retain);
      TreeAt(source, retain, k);
    }
  }

  /** Every asset of a is also in b. */
  ghost predicate Within(a: VersionIndex, b: VersionIndex, retain: bool) {
    forall i :: 0 <= i < |a| ==> Has(b, a[i], retain)
  }

  ghost predicate Has(index: VersionIndex, b: Asset, retain: bool) {
    exists k :: 0 <= k < |index| && Same(index[k], b, retain)
  }

  lemma TreesOfSame(a: VersionIndex, b: VersionIndex, retain: bool)
    requires DistinctPaths(a) && DistinctPaths(b)
    ensures Tree(a, retain) == Tree(b, retain) <==> Within(a, b, retain) && Within(b, a, retain)
  {
    WithinExactly(a, b, retain);
    WithinExactly(b, a, retain);
  }

  ghost predicate Extends(s: map<string, Content>, t: map<string, Content>) {
    forall path :: path in t ==> path in s && s[path] == t[path]
  }

  lemma WithinExactly(a: VersionIndex, b: VersionIndex, retain: bool)
    requires DistinctPaths(a) && DistinctPaths(b)
    ensures Within(a, b, retain) <==> Extends(Tree(b, retain), Tree(a, retain))
  {
    TreePaths(a, retain);
    TreePaths(b, retain);
    if Within(a, b, retain) {
      forall path | path in Tree(a, retain)
        ensures path in Tree(b, retain) && Tree(b, retain)[path] == Tree(a, retain)[path]
      {
        var i := LastWithPath(a, path);
        assert Has(b, a[i], retain);
        var k :| 0 <= k < |b| && Same(b[k], a[i], retain);
        TreeValues(a, retain, i);
        TreeValues(b, retain, k);
      }
    }
    if Extends(Tree(b, retain), Tree(a, retain)) {
      forall i | 0 <= i < |a|
        ensures Has(b, a[i], retain)
      {
        TreeValues(a, retain, i);
        var k := LastWithPath(b, a[i].path);
        TreeValues(b, retain, k);
        assert Same(b[k], a[i], retain);
      }
    }
  }

  /** A written version without repeated paths passes exactly if the source has
      no repeated paths either and each of the two has every asset of the other. */
  lemma PassesExactlyIfSame(source: VersionIndex, written: VersionIndex, retain: bool)
    requires DistinctPaths(written)
    ensures && |written| == |source| && (forall i :: 0 <= i < |written| ==> HasCounterpart(source, written[i], retain))
            <==> DistinctPaths(source) && Within(source, written, retain) && Within(written, source, retain)
  {
    AgreementIsEquality(source, written, retain);
    forall i | 0 <= i < |written|
      ensures Agrees(written, Tree(source, retain), retain, i) <==> HasCounterpart(source, written[i], retain)
    {
      AgreesByAsset(source, written, retain, i);
    }
    if DistinctPaths(source) {
      TreesOfSame(source, written, retain);
    }
  }

  // ------------------------------------------------------------------ the code

  /** The first reason to reject asset i, in the order of the checks. */
  predicate Explains(verdict: Verdict, source: VersionIndex, written: VersionIndex, retain: bool) {
    var tree := Tree(source, true);
    match verdict
    case Accepted => true
    case CountMismatch => |written| != |source|
    case InvalidPath(i) => i < |written| && written[i].path !in tree
    case SizeMismatch(i) =>
      i < |written| && written[i].path in tree && tree[written[i].path].size != written[i].content.size
    case HashMismatch(i) =>
      && i < |written| && written[i].path in tree && tree[written[i].path].size == written[i].content.size
      && tree[written[i].path].hash != written[i].content.hash
    case PermissionMismatch(i) =>
      && retain && i < |written| && written[i].path in tree
      && tree[written[i].path].size == written[i].content.size && tree[written[i].path].hash == written[i].content.hash
      && tree[written[i].path].permissions != written[i].content.permissions
  }

  lemma {:induction false} TreeForgetsPermissions(index: VersionIndex)
    ensures Tree(index, false).Keys == Tree(index, true).Keys
    ensures forall path :: path in Tree(index, true) ==>
              Tree(index, false)[path] == Compared(Tree(index, true)[path], false)
  {
    if index != [] {
      TreeForgetsPermissions(index[..|index| - 1]);
    }
  }

  predicate Failing(verdict: Verdict, i: nat) {
    !verdict.Accepted? && !verdict.CountMismatch? && verdict.i == i
  }

  /** The three lookup maps of the code hold the source tree. */
  predicate Lookups(
      tree: map<string, Content>, sizes: map<string, nat>, hashes: map<string, nat>, permissions: map<string, nat>)
  {
    && sizes.Keys == tree.Keys && hashes.Keys == tree.Keys && permissions.Keys == tree.Keys
    && forall path :: path in tree ==> tree[path] == Content(sizes[path], hashes[path], permissions[path])
  }

  method FillLookups(sourceIndex: VersionIndex)
    returns (assetSizeLookup: map<string, nat>, assetHashLookup: map<string, nat>,
        assetPermissionLookup: map<string, nat>)
    ensures Lookups(Tree(sourceIndex, true), assetSizeLookup, assetHashLookup, assetPermissionLookup)
  {
    assetSizeLookup, assetHashLookup, assetPermissionLookup := map[], map[], map[];
    for i := 0 to |sourceIndex|
      invariant Lookups(Tree(sourceIndex[..i], true), assetSizeLookup, assetHashLookup, assetPermissionLookup)
    {
      var asset := sourceIndex[i];
      assert sourceIndex[..i + 1][..i] == sourceIndex[..i];
      assetSizeLookup := assetSizeLookup[asset.path := asset.content.size];
      assetHashLookup := assetHashLookup[asset.path := asset.content.hash];
      assetPermissionLookup := assetPermissionLookup[asset.path := asset.content.permissions];
    }
    assert sourceIndex[..|sourceIndex|] == sourceIndex;
  }

  lemma AgreesByField(source: VersionIndex, written: VersionIndex, retain: bool, i: nat)
    requires i < |written|
    ensures Agrees(written, Tree(source, retain), retain, i) <==>
            && written[i].path in Tree(source, true)
            && var c := Tree(source, true)[written[i].path];
               && c.size == written[i].content.size && c.hash == written[i].content.hash
               && (retain ==> c.permissions == written[i].content.permissions)
  {
    TreeForgetsPermissions(source);
  }

  /** The loop stops at the first asset that does not agree and says why. */
  method Validate(sourceIndex: VersionIndex, validateIndex: VersionIndex, retainPermissions: bool)
    returns (verdict: Verdict)
    ensures verdict.Accepted? <==> AllAgree(sourceIndex, validateIndex, retainPermissions)
    ensures verdict.Accepted? <==>
            && |validateIndex| == |sourceIndex|
            && forall i :: 0 <= i < |validateIndex| ==>
                 HasCounterpart(sourceIndex, validateIndex[i], retainPermissions)
    ensures Explains(verdict, sourceIndex, validateIndex, retainPermissions)
    ensures verdict.CountMismatch? <==> |validateIndex| != |sourceIndex|
    ensures forall i, k :: 0 <= k < i < |validateIndex| && Failing(verdict, i) ==>
              Agrees(validateIndex, Tree(sourceIndex, retainPermissions), retainPermissions, k)
  {
    forall i | 0 <= i < |validateIndex|
      ensures Agrees(validateIndex, Tree(sourceIndex, retainPermissions), retainPermissions, i) <==>
              HasCounterpart(sourceIndex, validateIndex[i], retainPermissions)
    {
      AgreesByAsset(sourceIndex, validateIndex, retainPermissions, i);
    }
    if |validateIndex| != |sourceIndex| {
      return CountMismatch;
    }
    var assetSizeLookup, assetHashLookup, assetPermissionLookup := FillLookups(sourceIndex);
    for i := 0 to |validateIndex|
      invariant forall k :: 0 <= k < i ==>
                  Agrees(validateIndex, Tree(sourceIndex, retainPermissions), retainPermissions, k)
    {
      AgreesByField(sourceIndex, validateIndex, retainPermissions, i);
      var path, validate := validateIndex[i].path, validateIndex[i].content;
      if path !in assetSizeLookup {
        return InvalidPath(i);
      }
      if assetSizeLookup[path] != validate.size {
        return SizeMismatch(i);
      }
      if assetHashLookup[path] != validate.hash {
        return HashMismatch(i);
      }
      if retainPermissions {
        if assetPermissionLookup[path] != validate.permissions {
          return PermissionMismatch(i);
        }
      }
    }
    return Accepted;
  }
}
