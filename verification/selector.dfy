/** `Topology::selectDevice`: the device index to use for a locality on a
    given attempt. Attempt 0 draws at random within the best non-empty
    tier; attempt `n >= 1` walks `preferred ++ avail` deterministically. */
module Selector {
  import opened Outcomes
  import opened NameLists
  import opened Affinity

  /** `kWildcardLocation`: no specific locality. */
  const Wildcard: Key := "*"

  datatype Selection = Device(index: nat) | NoDevice

  /** The entry consulted for `key`: its own row, or, for the wildcard or a
      key without a row, the whole registry as one preferred tier. */
  function Consulted(m: Matrix, key: Key): (e: Entry)
    ensures forall x :: x in EntryNames(e) ==> x in Registry(m)
    ensures key == Wildcard || Lookup(m, key).None? ==> e == Entry(Registry(m), [])
    ensures key != Wildcard && Lookup(m, key).Some? ==> e == Lookup(m, key).value
  {
    var found := Lookup(m, key);
    if key == Wildcard || found.None? then Entry(Registry(m), [])
    else
      assert forall x :: x in EntryNames(found.value) ==> x in AllNames(m);
      found.value
  }

  /** The retry order: preferred devices, then available ones. */
  function Candidates(m: Matrix, key: Key): seq<Name> {
    EntryNames(Consulted(m, key))
  }

  /** The tier a first attempt draws from: preferred if it has a device,
      else available. */
  function FirstTier(m: Matrix, key: Key): seq<Name> {
    var e := Consulted(m, key);
    if |e.preferred| > 0 then e.preferred else e.avail
  }

  /** `selectDevice(key, retry)`. `draw` is the random number of a first
      attempt, reduced modulo the tier size; later attempts ignore it. The
      index returned is the chosen name's position in the registry. */
  function SelectDevice(m: Matrix, key: Key, retry: nat, draw: nat): (r: Selection)
    ensures r.Device? <==> |Candidates(m, key)| > 0
    ensures r.Device? ==> r.index < |Registry(m)|
    ensures r.Device? ==> Registry(m)[r.index] in Candidates(m, key)
    ensures r.Device? && retry == 0 ==> Registry(m)[r.index] in FirstTier(m, key)
    ensures r.Device? && retry > 0 ==>
      Registry(m)[r.index] == Candidates(m, key)[(retry - 1) % |Candidates(m, key)|]
  {
    match Pick(m, key, retry, draw)
    case None => NoDevice
    case Some(name) => Device(IndexOf(Registry(m), name))
  }

  /** The device name `selectDevice` settles on, before it is turned into
      a registry index. */
  function Pick(m: Matrix, key: Key, retry: nat, draw: nat): (r: Option<Name>)
    ensures r.Some? <==> |Candidates(m, key)| > 0
    ensures r.Some? ==> r.value in Candidates(m, key) && r.value in Registry(m)
  {
    var e := Consulted(m, key);
    var candidates := e.preferred + e.avail;
    if |candidates| == 0 then None
    else if retry == 0 then
      var tier := if |e.preferred| > 0 then e.preferred else e.avail;
      Some(tier[draw % |tier|])
    else Some(candidates[(retry - 1) % |candidates|])
  }

  lemma ModBelow(i: nat, n: nat)
    requires i < n
    ensures i % n == i
  {
  }

  lemma MulMonotonic(x: int, y: int, n: int)
    requires x <= y && n >= 0
    ensures x * n <= y * n
  {
    assert y * n - x * n == (y - x) * n;
  }

  /** Euclidean division has one quotient and one remainder. */
  lemma ModUnique(a: int, n: int, q: int, r: int)
    requires n > 0 && 0 <= r < n && a == q * n + r
    ensures a % n == r
  {
    var q', r' := a / n, a % n;
    assert a == q' * n + r';
    if q' > q {
      MulMonotonic(q + 1, q', n);
    } else if q' < q {
      MulMonotonic(q' + 1, q, n);
    }
  }

  lemma ModShift(i: nat, n: nat)
    requires n > 0
    ensures (i + n) % n == i % n
  {
    var q, r := i / n, i % n;
    assert i + n == (q + 1) * n + r;
    ModUnique(i + n, n, q + 1, r);
  }

  /** The names picked by attempts `1..n`. */
  function RetryWalk(m: Matrix, key: Key, n: nat): (w: seq<Name>)
    requires |Candidates(m, key)| > 0
    ensures |w| == n
  {
    seq(n, i requires 0 <= i < n => Registry(m)[SelectDevice(m, key, i + 1, 0).index])
  }

  /** Attempts `1..T`, with `T` the number of candidates, pick the
      candidates in order, each position exactly once. */
  lemma RetryWalkCoversCandidates(m: Matrix, key: Key)
    requires |Candidates(m, key)| > 0
    ensures RetryWalk(m, key, |Candidates(m, key)|) == Candidates(m, key)
  {
    var c := Candidates(m, key);
    var w := RetryWalk(m, key, |c|);
    forall i | 0 <= i < |c|
      ensures w[i] == c[i]
    {
      ModBelow(i, |c|);
      var d := SelectDevice(m, key, i + 1, 0);
      assert w[i] == Registry(m)[d.index];
    }
  }

  /** Attempts `T` apart pick the same device: the walk is a cycle. */
  lemma RetryWalkPeriodic(m: Matrix, key: Key, retry: nat, draw: nat)
    requires retry > 0
    ensures SelectDevice(m, key, retry + |Candidates(m, key)|, draw) == SelectDevice(m, key, retry, draw)
  {
    var t := |Candidates(m, key)|;
    if t > 0 {
      ModShift(retry - 1, t);
      assert (retry + t - 1) % t == (retry - 1) % t by {
        assert retry + t - 1 == (retry - 1) + t;
      }
      var d1, d2 := SelectDevice(m, key, retry + t, draw), SelectDevice(m, key, retry, draw);
      assert Registry(m)[d1.index] == Registry(m)[d2.index];
    }
  }

  /** Within one cycle, attempts pick different devices when the candidate
      list repeats no name. */
  lemma RetryWalkDistinct(m: Matrix, key: Key, r1: nat, r2: nat)
    requires NoDuplicates(Candidates(m, key))
    requires 1 <= r1 < r2 <= |Candidates(m, key)|
    ensures SelectDevice(m, key, r1, 0) != SelectDevice(m, key, r2, 0)
  {
    var c := Candidates(m, key);
    var n1, n2 := c[r1 - 1], c[r2 - 1];
    assert n1 != n2;
    ModBelow(r1 - 1, |c|);
    ModBelow(r2 - 1, |c|);
    var d1, d2 := SelectDevice(m, key, r1, 0), SelectDevice(m, key, r2, 0);
    assert Registry(m)[d1.index] == n1;
    assert Registry(m)[d2.index] == n2;
  }

  /** Attempt `retry`, within the first cycle, returns the registry index
      of candidate `retry - 1`. */
  lemma RetryPicksCandidate(m: Matrix, key: Key, retry: nat, draw: nat)
    requires 0 < retry <= |Candidates(m, key)|
    ensures SelectDevice(m, key, retry, draw) == Device(IndexOf(Registry(m), Candidates(m, key)[retry - 1]))
  {
    ModBelow(retry - 1, |Candidates(m, key)|);
  }

  /** The first retry picks the first preferred device. */
  lemma FirstRetryPicksFirstPreferred(m: Matrix, key: Key)
    requires |Consulted(m, key).preferred| > 0
    ensures SelectDevice(m, key, 1, 0).Device?
    ensures Registry(m)[SelectDevice(m, key, 1, 0).index] == Consulted(m, key).preferred[0]
  {
  }

  /** Every device of the first-attempt tier is the pick of some draw, and
      no other device is: a first attempt never falls back to an available
      device while a preferred one exists. */
  lemma FirstAttemptSupport(m: Matrix, key: Key, x: Name)
    ensures (exists draw: nat :: SelectDevice(m, key, 0, draw).Device?
                                 && Registry(m)[SelectDevice(m, key, 0, draw).index] == x)
            <==> x in FirstTier(m, key)
  {
    var tier := FirstTier(m, key);
    if x in tier {
      var i :| 0 <= i < |tier| && tier[i] == x;
      ModBelow(i, |tier|);
      assert Pick(m, key, 0, i) == Some(x);
      assert SelectDevice(m, key, 0, i).Device? && Registry(m)[SelectDevice(m, key, 0, i).index] == x;
    }
  }

  /** For the wildcard, attempt `i + 1` returns registry index `i`. */
  lemma WildcardWalksRegistry(m: Matrix, i: nat)
    requires i < |Registry(m)|
    ensures SelectDevice(m, Wildcard, i + 1, 0) == Device(i)
  {
    ModBelow(i, |Registry(m)|);
    assert Pick(m, Wildcard, i + 1, 0) == Some(Registry(m)[i]);
  }
}
