/** The concrete cases exercised by the repository's topology tests,
    derived from the general properties of the model. */
module Scenarios {
  import opened Outcomes
  import opened CStrings
  import opened CommonParent
  import opened RootComplex
  import opened NameLists
  import opened Affinity
  import opened Selector
  import opened TopologyJson

  /** The names of a two-row matrix, row by row. */
  lemma AllNamesOfTwoRows(r0: Row, r1: Row)
    ensures AllNames([r0, r1]) == EntryNames(r0.entry) + EntryNames(r1.entry)
  {
    AllNamesSnoc([], r0);
    AllNamesSnoc([r0], r1);
    assert [] + [r0] == [r0];
    assert [r0] + [r1] == [r0, r1];
  }

  lemma DedupOfSame(a: Name)
    ensures Dedup([a, a, a, a]) == [a]
  {
    DedupOfDistinctList([a]);
    DedupAppendSeen([a], [a, a, a]);
    assert [a] + [a, a, a] == [a, a, a, a];
  }

  lemma DedupOfDistinct(a: Name, b: Name, c: Name, d: Name)
    requires a != b && a != c && a != d && b != c && b != d && c != d
    ensures Dedup([a, b, c, d]) == [a, b, c, d]
  {
    DedupOfDistinctList([a, b, c, d]);
  }

  lemma DedupOfCrossed(a: Name, b: Name)
    requires a != b
    ensures Dedup([a, b, b, a]) == [a, b]
  {
    DedupOfDistinctList([a, b]);
    DedupAppendSeen([a, b], [b, a]);
    assert [a, b] + [b, a] == [a, b, b, a];
  }

  /** Two rows of one preferred and one available name each. */
  lemma RegistryOfTwoSmallRows(k0: Key, k1: Key, a: Name, b: Name, c: Name, d: Name)
    ensures Registry([Row(k0, Entry([a], [b])), Row(k1, Entry([c], [d]))]) == Dedup([a, b, c, d])
  {
    AllNamesOfTwoRows(Row(k0, Entry([a], [b])), Row(k1, Entry([c], [d])));
    assert EntryNames(Entry([a], [b])) + EntryNames(Entry([c], [d])) == [a, b, c, d];
  }

  /** `{"cpu:0": [["erdma_0"],["erdma_0"]], "cpu:1": [["erdma_0"],["erdma_0"]]}`
      has one device. */
  lemma RepeatedNameRegisteredOnce()
    ensures Registry([Row("cpu:0", Entry(["erdma_0"], ["erdma_0"])),
                      Row("cpu:1", Entry(["erdma_0"], ["erdma_0"]))]) == ["erdma_0"]
  {
    RegistryOfTwoSmallRows("cpu:0", "cpu:1", "erdma_0", "erdma_0", "erdma_0", "erdma_0");
    DedupOfSame("erdma_0");
  }

  /** Four distinct names give four devices. */
  lemma DistinctNamesRegisteredEach()
    ensures Registry([Row("cpu:0", Entry(["erdma_0"], ["erdma_1"])),
                      Row("cpu:1", Entry(["erdma_2"], ["erdma_3"]))])
            == ["erdma_0", "erdma_1", "erdma_2", "erdma_3"]
  {
    RegistryOfTwoSmallRows("cpu:0", "cpu:1", "erdma_0", "erdma_1", "erdma_2", "erdma_3");
    DedupOfDistinct("erdma_0", "erdma_1", "erdma_2", "erdma_3");
  }

  /** Two names shared crosswise give two devices, in first-seen order. */
  lemma CrossedNamesRegisteredOnce()
    ensures Registry([Row("cpu:0", Entry(["erdma_0"], ["erdma_1"])),
                      Row("cpu:1", Entry(["erdma_1"], ["erdma_0"]))])
            == ["erdma_0", "erdma_1"]
  {
    RegistryOfTwoSmallRows("cpu:0", "cpu:1", "erdma_0", "erdma_1", "erdma_1", "erdma_0");
    DedupOfCrossed("erdma_0", "erdma_1");
  }

  /** A one-row matrix: its registry and what a locality key consults. */
  lemma OneRow(k: Key, e: Entry)
    requires k != Wildcard
    ensures Registry([Row(k, e)]) == Dedup(EntryNames(e))
    ensures Candidates([Row(k, e)], k) == EntryNames(e)
    ensures FirstTier([Row(k, e)], k) == if |e.preferred| > 0 then e.preferred else e.avail
  {
    AllNamesSnoc([], Row(k, e));
    assert [] + [Row(k, e)] == [Row(k, e)];
    assert AllNames([Row(k, e)]) == EntryNames(e);
  }

  lemma DedupOfTwo(a: Name, b: Name)
    requires a != b
    ensures Dedup([a, b]) == [a, b]
  {
    DedupOfDistinctList([a, b]);
  }

  lemma DedupOfThree(a: Name, b: Name, c: Name)
    requires a != b && a != c && b != c
    ensures Dedup([a, b, c]) == [a, b, c]
  {
    DedupOfDistinctList([a, b, c]);
  }

  /** `{"cpu:0": [["erdma_0"],["erdma_1"]]}`: retries 1 and 2, for the key
      and for the wildcard, give devices 0 and 1. */
  lemma TwoRetriesUseBothDevices()
    ensures var m := [Row("cpu:0", Entry(["erdma_0"], ["erdma_1"]))];
      && SelectDevice(m, "cpu:0", 1, 0) == Device(0)
      && SelectDevice(m, "cpu:0", 2, 0) == Device(1)
      && SelectDevice(m, Wildcard, 1, 0) == Device(0)
      && SelectDevice(m, Wildcard, 2, 0) == Device(1)
  {
    var e := Entry(["erdma_0"], ["erdma_1"]);
    var m := [Row("cpu:0", e)];
    OneRow("cpu:0", e);
    assert EntryNames(e) == ["erdma_0", "erdma_1"];
    DedupOfTwo("erdma_0", "erdma_1");
    RetryPicksCandidate(m, "cpu:0", 1, 0);
    RetryPicksCandidate(m, "cpu:0", 2, 0);
    WildcardWalksRegistry(m, 0);
    WildcardWalksRegistry(m, 1);
  }

  /** `{"gpu:0": [["mlx5_0"],["mlx5_1","mlx5_2"]]}`: retries 1, 2, 3 give
      devices 0, 1, 2. */
  lemma RetriesWalkPreferredThenAvailable()
    ensures var m := [Row("gpu:0", Entry(["mlx5_0"], ["mlx5_1", "mlx5_2"]))];
      && SelectDevice(m, "gpu:0", 1, 0) == Device(0)
      && SelectDevice(m, "gpu:0", 2, 0) == Device(1)
      && SelectDevice(m, "gpu:0", 3, 0) == Device(2)
  {
    var e := Entry(["mlx5_0"], ["mlx5_1", "mlx5_2"]);
    var m := [Row("gpu:0", e)];
    OneRow("gpu:0", e);
    assert EntryNames(e) == ["mlx5_0", "mlx5_1", "mlx5_2"];
    DedupOfThree("mlx5_0", "mlx5_1", "mlx5_2");
    RetryPicksCandidate(m, "gpu:0", 1, 0);
    RetryPicksCandidate(m, "gpu:0", 2, 0);
    RetryPicksCandidate(m, "gpu:0", 3, 0);
  }

  /** `{"gpu:0": [["mlx5_0","mlx5_1"],["mlx5_2"]]}`: a first attempt picks
      device 0 or 1, never the available device 2. */
  lemma FirstAttemptStaysPreferred(draw: nat)
    ensures var m := [Row("gpu:0", Entry(["mlx5_0", "mlx5_1"], ["mlx5_2"]))];
      && SelectDevice(m, "gpu:0", 0, draw).Device?
      && SelectDevice(m, "gpu:0", 0, draw).index < 2
  {
    var e := Entry(["mlx5_0", "mlx5_1"], ["mlx5_2"]);
    var m := [Row("gpu:0", e)];
    OneRow("gpu:0", e);
    assert EntryNames(e) == ["mlx5_0", "mlx5_1", "mlx5_2"];
    DedupOfThree("mlx5_0", "mlx5_1", "mlx5_2");
  }

  /** `{"gpu:0": [[],["mlx5_0","mlx5_1"]]}`: a first attempt falls back to
      the available devices, index 0 or 1. */
  lemma EmptyPreferredFallsBackToAvailable(draw: nat)
    ensures var m := [Row("gpu:0", Entry([], ["mlx5_0", "mlx5_1"]))];
      && SelectDevice(m, "gpu:0", 0, draw).Device?
      && SelectDevice(m, "gpu:0", 0, draw).index < 2
  {
    var e := Entry([], ["mlx5_0", "mlx5_1"]);
    OneRow("gpu:0", e);
    assert EntryNames(e) == ["mlx5_0", "mlx5_1"];
    DedupOfTwo("mlx5_0", "mlx5_1");
  }

  /** Disabling `mlx5_0` in `{"gpu:0": [["mlx5_0","mlx5_1"],["mlx5_2"]]}`
      leaves `[["mlx5_1"],["mlx5_2"]]`. */
  lemma DisableFirstPreferred()
    ensures DisableDevice([Row("gpu:0", Entry(["mlx5_0", "mlx5_1"], ["mlx5_2"]))], "mlx5_0")
            == [Row("gpu:0", Entry(["mlx5_1"], ["mlx5_2"]))]
  {
    DisableFirstOfTwo("gpu:0", "mlx5_0", "mlx5_1", "mlx5_2");
  }

  lemma DisableFirstOfTwo(k: Key, a: Name, b: Name, c: Name)
    requires a != b && a != c
    ensures DisableDevice([Row(k, Entry([a, b], [c]))], a) == [Row(k, Entry([b], [c]))]
  {
    DisableOneRow(k, Entry([a, b], [c]), a);
    RemoveFirstOfTwo(a, b);
    RemoveAllSingleton(c, a);
  }

  lemma DisableOneRow(k: Key, e: Entry, x: Name)
    ensures DisableDevice([Row(k, e)], x)
            == [Row(k, Entry(RemoveAll(e.preferred, x), RemoveAll(e.avail, x)))]
  {
    var r := DisableDevice([Row(k, e)], x);
    assert r[0] == Row(k, Entry(RemoveAll(e.preferred, x), RemoveAll(e.avail, x)));
  }


  lemma RemoveFirstOfTwo(a: Name, b: Name)
    requires a != b
    ensures RemoveAll([a, b], a) == [b]
  {
    RemoveAllAppend([a], [b], a);
    assert [a] + [b] == [a, b];
    RemoveAllSingleton(a, a);
    RemoveAllSingleton(b, a);
  }

  /** Parsing `{"gpu:0": [["mlx5_0","mlx5_1"],["mlx5_2","mlx5_3"]]}`
      succeeds and keeps both lists in order. */
  lemma ParseTwoTierEntry()
    ensures var v := JObject([Member("gpu:0", JArray([
                        JArray([JString("mlx5_0"), JString("mlx5_1")]),
                        JArray([JString("mlx5_2"), JString("mlx5_3")])]))]);
      Parse(v) == Ok([Row("gpu:0", Entry(["mlx5_0", "mlx5_1"], ["mlx5_2", "mlx5_3"]))])
  {
    var m := [Row("gpu:0", Entry(["mlx5_0", "mlx5_1"], ["mlx5_2", "mlx5_3"]))];
    ParseEncode(m);
    assert EncodeNames(["mlx5_0", "mlx5_1"]) == [JString("mlx5_0"), JString("mlx5_1")];
    assert EncodeNames(["mlx5_2", "mlx5_3"]) == [JString("mlx5_2"), JString("mlx5_3")];
  }

  /** `{"cpu:0": [["erdma_0"],["erdma_1"]], "cpu:1": [["erdma_1"],["erdma_0"]]}`
      parses to a matrix that is not empty. */
  lemma ParsedCrossedMatrixNotEmpty()
    ensures var m := [Row("cpu:0", Entry(["erdma_0"], ["erdma_1"])),
                      Row("cpu:1", Entry(["erdma_1"], ["erdma_0"]))];
      && Parse(Encode(m)).Ok?
      && !IsEmpty(Parse(Encode(m)).value)
  {
    var m := [Row("cpu:0", Entry(["erdma_0"], ["erdma_1"])),
              Row("cpu:1", Entry(["erdma_1"], ["erdma_0"]))];
    ParseEncode(m);
  }

  /** Root complex directories of the tests are recognised. */
  lemma RootComplexAccepted()
    ensures IsPciRootComplex(Some("/sys/devices/pci0000:17"))
    ensures IsPciRootComplex(Some("/sys/devices/pci000a:0b"))
  {
    RootComplexOfTwoParts("0000", "17");
    assert PciDevicesPrefix + "0000" + ":" + "17" == "/sys/devices/pci0000:17";
    RootComplexOfTwoParts("000a", "0b");
    assert PciDevicesPrefix + "000a" + ":" + "0b" == "/sys/devices/pci000a:0b";
  }

  /** `/sys/devices/pci<domain>:<bus>` for hex `domain` and `bus`. */
  lemma RootComplexOfTwoParts(domain: string, bus: string)
    requires |domain| > 0 && IsHexString(domain)
    requires |bus| > 0 && IsHexString(bus)
    ensures var p := PciDevicesPrefix + domain + ":" + bus;
      '\0' !in p && IsPciRootComplex(Some(p))
  {
    RootComplexPathIsAccepted(PciDevicesPrefix + domain + ":" + bus, domain, bus);
  }

  /** Paths the tests expect to be refused are refused. */
  lemma RootComplexRefused()
    ensures !IsPciRootComplex(None)
    ensures !IsPciRootComplex(Some(""))
    ensures !IsPciRootComplex(Some("/sys/devices"))
    ensures !IsPciRootComplex(Some("/sys/devices/pci"))
    ensures !IsPciRootComplex(Some("/dev/pci0000:17"))
    ensures !IsPciRootComplex(Some("/sys/devices/pci:17"))
    ensures !IsPciRootComplex(Some("/sys/devices/pci0000"))
    ensures !IsPciRootComplex(Some("/sys/devices/pci0000:17/"))
  {
    MissingDomainRefused();
    MissingBusRefused();
    TrailingSlashRefused();
  }

  lemma MissingDomainRefused()
    ensures !IsPciRootComplex(Some("/sys/devices/pci:17"))
  {
    HexRunUnique(":17", 0);
    assert "/sys/devices/pci:17"[|PciDevicesPrefix|..] == ":17";
  }

  lemma MissingBusRefused()
    ensures !IsPciRootComplex(Some("/sys/devices/pci0000"))
  {
    HexRunUnique("0000", 4);
    assert "/sys/devices/pci0000"[|PciDevicesPrefix|..] == "0000";
  }

  lemma TrailingSlashRefused()
    ensures !IsPciRootComplex(Some("/sys/devices/pci0000:17/"))
  {
    RootComplexAccepted();
    NoRootComplexBelowRootComplex("/sys/devices/pci0000:17", "");
    assert "/sys/devices/pci0000:17" + "/" + "" == "/sys/devices/pci0000:17/";
  }

  /** `/sys/devices/pci0000:17abc` and `/sys/devices/pci0000:17def` share
      only `/sys/devices`. */
  lemma PartialComponentNotShared()
    ensures GetCommonParent(Some("/sys/devices/pci0000:17abc"), Some("/sys/devices/pci0000:17def")) == "/sys/devices"
  {
    var x, y := "pci0000:17abc", "pci0000:17def";
    assert x[..10] == y[..10];
    DivergingComponentsShareDirectory("/sys/devices", x, y, 10);
    assert "/sys/devices" + "/" + x == "/sys/devices/pci0000:17abc";
    assert "/sys/devices" + "/" + y == "/sys/devices/pci0000:17def";
  }

  /** `/` and `/sys` share nothing. */
  lemma LoneRootNotShared()
    ensures GetCommonParent(Some("/"), Some("/sys")) == ""
  {
    TrailingSlashDropped("", "sys");
    assert "" + "/" == "/";
    assert "" + "/" + "sys" == "/sys";
  }

  /** `{"gpu:0": [["mlx5_0","mlx5_1"],["mlx5_2"]], "gpu:1": [["mlx5_2","mlx5_3"],["mlx5_0"]]}`
      has four devices. */
  lemma TwoAcceleratorsShareFourDevices()
    ensures |Registry([Row("gpu:0", Entry(["mlx5_0", "mlx5_1"], ["mlx5_2"])),
                       Row("gpu:1", Entry(["mlx5_2", "mlx5_3"], ["mlx5_0"]))])| == 4
  {
    var r0 := Row("gpu:0", Entry(["mlx5_0", "mlx5_1"], ["mlx5_2"]));
    var r1 := Row("gpu:1", Entry(["mlx5_2", "mlx5_3"], ["mlx5_0"]));
    AllNamesOfTwoRows(r0, r1);
    DedupOfOverlap("mlx5_0", "mlx5_1", "mlx5_2", "mlx5_3");
    assert EntryNames(r0.entry) + EntryNames(r1.entry)
        == ["mlx5_0", "mlx5_1", "mlx5_2"] + ["mlx5_2", "mlx5_3", "mlx5_0"];
  }

  lemma DedupOfOverlap(a: Name, b: Name, c: Name, d: Name)
    requires a != b && a != c && a != d && b != c && b != d && c != d
    ensures Dedup([a, b, c] + [c, d, a]) == [a, b, c, d]
  {
    DedupOfRepeatThenNew(a, b, c, d);
    DedupAppendSeen([a, b, c, c, d], [a]);
    assert [a, b, c, c, d] + [a] == [a, b, c] + [c, d, a];
  }

  lemma DedupOfRepeatThenNew(a: Name, b: Name, c: Name, d: Name)
    requires a != b && a != c && a != d && b != c && b != d && c != d
    ensures Dedup([a, b, c, c, d]) == [a, b, c, d]
  {
    DedupOfRepeat(a, b, c);
    DedupSnoc([a, b, c, c], d);
    assert [a, b, c, c] + [d] == [a, b, c, c, d];
  }

  lemma DedupOfRepeat(a: Name, b: Name, c: Name)
    requires a != b && a != c && b != c
    ensures Dedup([a, b, c, c]) == [a, b, c]
  {
    DedupOfDistinctList([a, b, c]);
    DedupAppendSeen([a, b, c], [c]);
    assert [a, b, c] + [c] == [a, b, c, c];
  }
}
