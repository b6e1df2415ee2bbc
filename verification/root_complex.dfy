/** `isPciRootComplex`: recognises the sysfs directory of a PCI root
    complex, `/sys/devices/pci<domain>:<bus>` with nothing after it. */
module RootComplex {
  import opened Outcomes
  import opened CStrings

  /** The literal part of the scan format. */
  const PciDevicesPrefix: string := "/sys/devices/pci"

  predicate IsHexDigit(c: char) {
    ('0' <= c <= '9') || ('a' <= c <= 'f') || ('A' <= c <= 'F')
  }

  predicate IsHexString(s: seq<char>) {
    forall i :: 0 <= i < |s| ==> IsHexDigit(s[i])
  }

  /** The end of the run of hex digits of `s` that starts at offset `i`:
      how far a `%x` conversion started at `i` reads. */
  function HexRunFrom(s: seq<char>, i: nat): (e: nat)
    requires i <= |s|
    ensures i <= e <= |s|
    ensures forall k :: i <= k < e ==> IsHexDigit(s[k])
    ensures e == |s| || !IsHexDigit(s[e])
    decreases |s| - i
  {
    if i < |s| && IsHexDigit(s[i]) then HexRunFrom(s, i + 1) else i
  }

  /** The length of the leading run of hex digits of `s`. */
  function HexRun(s: seq<char>): (n: nat)
    ensures n <= |s|
    ensures IsHexString(s[..n])
    ensures n == |s| || !IsHexDigit(s[n])
  {
    HexRunFrom(s, 0)
  }

  /** A leading run of hex digits ended by the end of `s` or by a non-hex
      character is the run `HexRun` finds. */
  lemma HexRunUnique(s: seq<char>, n: nat)
    requires n <= |s|
    requires IsHexString(s[..n])
    requires n == |s| || !IsHexDigit(s[n])
    ensures HexRun(s) == n
  {
  }

  /** The scan `"/sys/devices/pci%*x:%*x%n"` of the C code, accepted when
      the characters it consumes are the whole path. The hex conversions
      are taken as strict runs of one or more hex digits. */
  function IsPciRootComplex(path: Option<CString>): (r: bool)
    ensures r ==> path.Some?
    ensures r ==> |path.value| > |PciDevicesPrefix|
                  && path.value[..|PciDevicesPrefix|] == PciDevicesPrefix
    ensures r ==> forall i :: |PciDevicesPrefix| <= i < |path.value| ==> path.value[i] != '/'
  {
    match path
    case None => false
    case Some(p) =>
      if |p| <= |PciDevicesPrefix| || p[..|PciDevicesPrefix|] != PciDevicesPrefix then false
      else
        var rest := p[|PciDevicesPrefix|..];
        var domain := HexRun(rest);
        if domain == 0 || domain == |rest| || rest[domain] != ':' then false
        else
          var bus := rest[domain + 1..];
          var busLen := HexRun(bus);
          if busLen == 0 || busLen != |bus| then false
          else
            assert forall i :: 0 <= i < |rest| ==> rest[i] != '/' by {
              assert forall i :: 0 <= i < domain ==> rest[..domain][i] == rest[i];
              assert forall i :: domain < i < |rest| ==> bus[..busLen][i - domain - 1] == rest[i];
            }
            true
  }

  /** The exact grammar of a root complex directory. */
  ghost predicate IsRootComplexPath(p: seq<char>) {
    exists domain, bus ::
      && |domain| > 0 && IsHexString(domain)
      && |bus| > 0 && IsHexString(bus)
      && p == PciDevicesPrefix + domain + ":" + bus
  }

  /** Every path the scan accepts is in the grammar. */
  lemma AcceptedPathIsRootComplexPath(p: CString)
    requires IsPciRootComplex(Some(p))
    ensures IsRootComplexPath(p)
  {
    var n := |PciDevicesPrefix|;
    var rest := p[n..];
    var d := HexRun(rest);
    var domain, bus := rest[..d], rest[d + 1..];
    assert rest == domain + ":" + bus;
    assert p == p[..n] + rest;
    assert bus[..|bus|] == bus;
    assert IsHexString(bus);
  }

  /** Every path of the grammar is accepted by the scan. */
  lemma RootComplexPathIsAccepted(p: CString, domain: seq<char>, bus: seq<char>)
    requires |domain| > 0 && IsHexString(domain)
    requires |bus| > 0 && IsHexString(bus)
    requires p == PciDevicesPrefix + domain + ":" + bus
    ensures IsPciRootComplex(Some(p))
  {
    var n := |PciDevicesPrefix|;
    assert p[..n] == PciDevicesPrefix;
    var rest := p[n..];
    assert rest == domain + ":" + bus;
    assert rest[..|domain|] == domain;
    HexRunUnique(rest, |domain|);
    assert rest[|domain| + 1..] == bus;
    assert bus[..|bus|] == bus;
    HexRunUnique(bus, |bus|);
  }

  /** The scan accepts exactly the paths of the grammar. */
  lemma IsPciRootComplexIff(p: CString)
    ensures IsPciRootComplex(Some(p)) <==> IsRootComplexPath(p)
  {
    if IsPciRootComplex(Some(p)) {
      AcceptedPathIsRootComplexPath(p);
    }
    if IsRootComplexPath(p) {
      var domain, bus :| && |domain| > 0 && IsHexString(domain)
                         && |bus| > 0 && IsHexString(bus)
                         && p == PciDevicesPrefix + domain + ":" + bus;
      RootComplexPathIsAccepted(p, domain, bus);
    }
  }

  /** No path below a root complex directory is itself a root complex: a
      trailing `/` or an extra component is refused. */
  lemma NoRootComplexBelowRootComplex(p: CString, q: CString)
    requires IsPciRootComplex(Some(p))
    ensures !IsPciRootComplex(Some(p + "/" + q))
  {
    var c: CString := p + "/" + q;
    assert c[|p|] == '/';
  }
}
