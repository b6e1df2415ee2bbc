/** `isSamePcieRootComplex`: two PCI devices share a root complex when the
    common parent of their resolved sysfs paths, or one of its ancestors
    reached by cutting at a `/`, is a root complex directory. */
module SameRootComplex {
  import opened Outcomes
  import opened CStrings
  import opened CommonParent
  import opened RootComplex

  /** The directory whose entries are symbolic links named by PCI bus ID. */
  const PciBusDevicesDir: string := "/sys/bus/pci/devices/"

  /** `std::string::find_last_of('/')`: the offset of the last `/`. */
  function LastSlash(s: seq<char>): (r: Option<nat>)
    ensures r.Some? ==> r.value < |s| && s[r.value] == '/'
    ensures r.Some? ==> forall i :: r.value < i < |s| ==> s[i] != '/'
    ensures r.None? ==> forall i :: 0 <= i < |s| ==> s[i] != '/'
  {
    if |s| == 0 then None
    else if s[|s| - 1] == '/' then Some(|s| - 1)
    else LastSlash(s[..|s| - 1])
  }

  /** The upward walk of the C code: test `common`, then cut it at its last
      `/` and test again, until it is empty or holds no `/`. Each cut makes
      `common` strictly shorter. */
  function WalkUp(common: CString): bool
    decreases |common|
  {
    if |common| == 0 then false
    else if IsPciRootComplex(Some(common)) then true
    else
      match LastSlash(common)
      case None => false
      case Some(pos) => WalkUp(common[..pos])
  }

  /** Cutting `c` at offset `k` (its end, or a `/`) leaves a root complex
      directory. */
  ghost predicate RootComplexCut(c: CString, k: nat) {
    && k <= |c|
    && (k == |c| || c[k] == '/')
    && IsPciRootComplex(Some(c[..k]))
  }

  /** The walk succeeds exactly when some cut of `common` at its end or at
      one of its slashes is a root complex directory. */
  lemma {:induction false} WalkUpIff(c: CString)
    ensures WalkUp(c) <==> exists k: nat :: RootComplexCut(c, k)
    decreases |c|
  {
    if |c| == 0 {
      assert forall k: nat :: !RootComplexCut(c, k) by {
        assert c[..0] == c;
      }
    } else if IsPciRootComplex(Some(c)) {
      assert c[..|c|] == c;
      assert RootComplexCut(c, |c|);
    } else {
      assert c[..|c|] == c;
      match LastSlash(c)
      case None =>
        assert forall k: nat :: !RootComplexCut(c, k);
      case Some(pos) =>
        var up: CString := c[..pos];
        WalkUpIff(up);
        if WalkUp(up) {
          var k: nat :| RootComplexCut(up, k);
          assert up[..k] == c[..k];
          assert RootComplexCut(c, k);
        } else {
          forall k: nat | k <= |c|
            ensures !RootComplexCut(c, k)
          {
            if k < |c| && c[k] == '/' {
              assert k <= pos;
              assert up[..k] == c[..k];
              assert !RootComplexCut(up, k);
            }
          }
        }
    }
  }

  /** `isSamePcieRootComplex`. `resolve` stands for `realpath` applied to
      the link path built from a bus ID; `None` is a failed resolution. */
  function IsSamePcieRootComplex(bus1: Option<CString>, bus2: Option<CString>,
                                 resolve: string -> Option<CString>): (r: bool)
    ensures bus1.None? || bus2.None? ==> !r
    ensures r ==> resolve(PciBusDevicesDir + bus1.value).Some?
                  && resolve(PciBusDevicesDir + bus2.value).Some?
  {
    if bus1.None? || bus2.None? then false
    else
      match resolve(PciBusDevicesDir + bus1.value)
      case None => false
      case Some(resolved1) =>
        match resolve(PciBusDevicesDir + bus2.value)
        case None => false
        case Some(resolved2) =>
          var common := GetCommonParent(Some(resolved1), Some(resolved2));
          if |common| == 0 then false
          else WalkUp(common)
  }

  /** Both resolved paths lie at or below the root complex directory that
      is their common prefix of length `k`. */
  ghost predicate RootComplexAbove(r1: CString, r2: CString, k: nat) {
    && k <= |r1| && k <= |r2|
    && r1[..k] == r2[..k]
    && SharedBoundary(r1, r2, k)
    && IsPciRootComplex(Some(r1[..k]))
  }

  ghost predicate UnderSameRootComplex(r1: CString, r2: CString) {
    exists k: nat :: RootComplexAbove(r1, r2, k)
  }

  /** A root complex directory above both paths is one of the cuts of
      their common parent, and every cut of the common parent is a
      directory above both paths. */
  lemma CommonParentCutsIff(r1: CString, r2: CString)
    ensures var common := GetCommonParent(Some(r1), Some(r2));
      (|common| > 0 && exists k: nat :: RootComplexCut(common, k)) <==> UnderSameRootComplex(r1, r2)
  {
    var common := GetCommonParent(Some(r1), Some(r2));
    var l := |common|;
    if |common| > 0 && exists k: nat :: RootComplexCut(common, k) {
      var k: nat :| RootComplexCut(common, k);
      assert common[..k] == r1[..k];
      assert r1[..k] == r2[..k] by {
        assert common[..k] == r2[..k];
      }
      if k < l {
        assert r1[k] == common[k] == '/';
        assert r2[k] == common[k] by {
          assert r2[..l][k] == common[k];
        }
      }
      assert RootComplexAbove(r1, r2, k);
    }
    if UnderSameRootComplex(r1, r2) {
      var k: nat :| RootComplexAbove(r1, r2, k);
      AgreeingPrefixWithinScan(r1, r2, k);
      assert k <= l;
      assert common[..k] == r1[..k];
      if k < l {
        assert r1[k] != '\0';
        assert common[k] == r1[k] == '/';
      }
      assert RootComplexCut(common, k);
    }
  }

  /** Once both bus IDs resolve, the predicate holds exactly when one root
      complex directory lies above both resolved device paths. */
  lemma IsSamePcieRootComplexIff(bus1: CString, bus2: CString,
                                 resolve: string -> Option<CString>,
                                 r1: CString, r2: CString)
    requires resolve(PciBusDevicesDir + bus1) == Some(r1)
    requires resolve(PciBusDevicesDir + bus2) == Some(r2)
    ensures IsSamePcieRootComplex(Some(bus1), Some(bus2), resolve) <==> UnderSameRootComplex(r1, r2)
  {
    var common := GetCommonParent(Some(r1), Some(r2));
    WalkUpIff(common);
    CommonParentCutsIff(r1, r2);
  }
}
