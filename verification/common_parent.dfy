/** `getCommonParentLength` and `getCommonParent`: the longest common
    ancestor directory of two resolved paths, found by a lock-step scan
    that remembers the last offset where both paths end a component. */
module CommonParent {
  import opened Outcomes
  import opened CStrings

  /** Both paths end a component at offset `k`. */
  predicate SharedBoundary(a: CString, b: CString, k: nat)
    requires k <= |a| && k <= |b|
  {
    IsBoundary(a, k) && IsBoundary(b, k)
  }

  /** Where the lock-step scan started at offset `i` stops: the first offset
      at which the two paths differ, or their common end. */
  function ScanEndFrom(a: CString, b: CString, i: nat): (m: nat)
    requires i <= |a| && i <= |b|
    ensures i <= m && m <= |a| && m <= |b|
    ensures forall k :: i <= k < m ==> a[k] == b[k]
    ensures At(a, m) != At(b, m) || (m == |a| && m == |b|)
    decreases |a| - i
  {
    if i < |a| && i < |b| && a[i] == b[i] then ScanEndFrom(a, b, i + 1) else i
  }

  /** The offset at which the whole scan stops: the length of the longest
      common prefix of the two paths. */
  function ScanEnd(a: CString, b: CString): (m: nat)
    ensures m <= |a| && m <= |b|
    ensures a[..m] == b[..m]
    ensures At(a, m) != At(b, m) || (m == |a| && m == |b|)
  {
    var m := ScanEndFrom(a, b, 0);
    assert forall k :: 0 <= k < m ==> a[..m][k] == b[..m][k];
    m
  }

  /** The last shared component boundary at or before offset `k`, or 0. */
  function LastSharedBoundary(a: CString, b: CString, k: nat): (r: nat)
    requires k <= |a| && k <= |b|
    ensures r <= k
    ensures r == 0 || SharedBoundary(a, b, r)
    ensures forall j :: r < j <= k ==> !SharedBoundary(a, b, j)
  {
    if SharedBoundary(a, b, k) then k
    else if k == 0 then 0
    else LastSharedBoundary(a, b, k - 1)
  }

  /** The length of the common parent of two paths: 0 for a null path,
      otherwise the last offset, within the common prefix, at which both
      paths hold `/` or end. */
  function CommonParentLength(p1: Option<CString>, p2: Option<CString>): (r: nat)
    ensures p1.None? || p2.None? ==> r == 0
    ensures p1.Some? && p2.Some? ==>
      var a, b := p1.value, p2.value;
      && r <= |a| && r <= |b|
      && a[..r] == b[..r]
      && (r == 0 || SharedBoundary(a, b, r))
      && forall j :: r < j <= ScanEnd(a, b) ==> !SharedBoundary(a, b, j)
  {
    if p1.None? || p2.None? then 0
    else
      var a, b := p1.value, p2.value;
      var m := ScanEnd(a, b);
      var r := LastSharedBoundary(a, b, m);
      assert a[..r] == a[..m][..r];
      r
  }

  /** The do-while scan of the C code. Every character it reads lies at or
      before the terminator of the path it reads from. */
  method GetCommonParentLength(p1: Option<CString>, p2: Option<CString>) returns (len: nat)
    ensures len == CommonParentLength(p1, p2)
  {
    if p1.None? || p2.None? {
      return 0;
    }
    var a, b := p1.value, p2.value;
    var offset: nat := 0;
    var parent: nat := 0;
    // first pass of the do-while body
    if (At(a, offset) == '/' || At(a, offset) == '\0') && (At(b, offset) == '/' || At(b, offset) == '\0') {
      parent := offset;
    }
    while At(a, offset) == At(b, offset) && At(a, offset) != '\0'
      invariant offset <= |a| && offset <= |b|
      invariant forall k :: 0 <= k < offset ==> a[k] == b[k]
      invariant parent == LastSharedBoundary(a, b, offset)
      decreases |a| - offset
    {
      offset := offset + 1;
      if (At(a, offset) == '/' || At(a, offset) == '\0') && (At(b, offset) == '/' || At(b, offset) == '\0') {
        parent := offset;
      }
    }
    ScanEndUnique(a, b, offset);
    len := parent;
  }

  /** `getCommonParent`: the prefix of the first path of the common parent
      length; the empty string when either path is null. */
  function GetCommonParent(p1: Option<CString>, p2: Option<CString>): (r: CString)
    ensures p1.None? || p2.None? ==> r == []
    ensures p1.Some? && p2.Some? ==>
      && |r| == CommonParentLength(p1, p2)
      && r == p1.value[..|r|]
      && r == p2.value[..|r|]
  {
    match p1
    case None => []
    case Some(a) => a[..CommonParentLength(p1, p2)]
  }

  /** The scan's stopping point is determined by the two conditions it
      stops on. */
  lemma ScanEndUnique(a: CString, b: CString, m: nat)
    requires m <= |a| && m <= |b|
    requires forall k :: 0 <= k < m ==> a[k] == b[k]
    requires At(a, m) != At(b, m) || (m == |a| && m == |b|)
    ensures ScanEnd(a, b) == m
  {
  }

  /** Any offset up to which both paths agree lies within the scanned
      prefix. */
  lemma AgreeingPrefixWithinScan(a: CString, b: CString, k: nat)
    requires k <= |a| && k <= |b|
    requires a[..k] == b[..k]
    ensures k <= ScanEnd(a, b)
  {
  }

  /** A shared boundary inside the scanned prefix, with no shared boundary
      after it, is the common parent length. */
  lemma CommonParentLengthUnique(a: CString, b: CString, r: nat)
    requires r <= ScanEnd(a, b)
    requires r == 0 || SharedBoundary(a, b, r)
    requires forall j :: r < j <= ScanEnd(a, b) ==> !SharedBoundary(a, b, j)
    ensures CommonParentLength(Some(a), Some(b)) == r
  {
  }

  /** The common parent does not depend on the order of the arguments. */
  lemma CommonParentLengthSymmetric(p1: Option<CString>, p2: Option<CString>)
    ensures CommonParentLength(p1, p2) == CommonParentLength(p2, p1)
  {
    if p1.Some? && p2.Some? {
      var a, b := p1.value, p2.value;
      ScanEndUnique(b, a, ScanEnd(a, b));
      var r := CommonParentLength(p1, p2);
      assert forall j :: r < j <= ScanEnd(a, b) ==> SharedBoundary(b, a, j) == SharedBoundary(a, b, j);
      CommonParentLengthUnique(b, a, r);
    }
  }

  /** Identical paths have the whole path as their common parent. */
  lemma IdenticalPathsShareWholePath(a: CString)
    ensures GetCommonParent(Some(a), Some(a)) == a
  {
    ScanEndUnique(a, a, |a|);
    CommonParentLengthUnique(a, a, |a|);
  }

  /** A directory and a path below it have the directory as common parent
      (`/sys` against `/sys/devices`, in either order). */
  lemma DirectoryIsParentOfDescendant(d: CString, q: CString)
    ensures GetCommonParent(Some(d), Some(d + "/" + q)) == d
    ensures GetCommonParent(Some(d + "/" + q), Some(d)) == d
  {
    var b: CString := d + "/" + q;
    assert forall k :: 0 <= k < |d| ==> d[k] == b[k];
    ScanEndUnique(d, b, |d|);
    CommonParentLengthUnique(d, b, |d|);
    CommonParentLengthSymmetric(Some(d), Some(b));
    assert b[..|d|] == d;
  }

  /** A trailing slash is dropped: `d/` against `d/q` has parent `d` when
      `q` starts a new component name; in particular `/` against `/sys`
      has the empty parent. */
  lemma TrailingSlashDropped(d: CString, q: CString)
    requires |q| > 0 && q[0] != '/'
    ensures GetCommonParent(Some(d + "/"), Some(d + "/" + q)) == d
  {
    var a: CString := d + "/";
    var b: CString := d + "/" + q;
    assert forall k :: 0 <= k < |a| ==> a[k] == b[k];
    ScanEndUnique(a, b, |a|);
    assert !SharedBoundary(a, b, |a|);
    CommonParentLengthUnique(a, b, |d|);
  }

  /** Two paths that leave directory `d` through different component names
      have `d` as their common parent, even when the names share a prefix
      (`pci0000:17abc` against `pci0000:17def`). */
  lemma DivergingComponentsShareDirectory(d: CString, x: CString, y: CString, j: nat)
    requires j < |x| && j < |y|
    requires x[..j] == y[..j] && x[j] != y[j]
    requires forall k :: 0 <= k < j ==> x[k] != '/'
    ensures GetCommonParent(Some(d + "/" + x), Some(d + "/" + y)) == d
  {
    var a: CString := d + "/" + x;
    var b: CString := d + "/" + y;
    var m := |d| + 1 + j;
    assert forall k :: 0 <= k < j ==> x[k] == x[..j][k] == y[..j][k] == y[k];
    assert forall k :: 0 <= k < m ==> a[k] == b[k];
    ScanEndUnique(a, b, m);
    assert forall k :: |d| < k < m ==> a[k] == x[k - |d| - 1] != '/';
    assert forall k :: |d| < k <= m ==> !SharedBoundary(a, b, k);
    CommonParentLengthUnique(a, b, |d|);
  }
}
