/** `Topology::parse` and the structure `toString` writes: a JSON object
    mapping each locality key to `[[preferred...], [avail...]]`. JSON text
    itself is not modelled, only the decoded value. */
module TopologyJson {
  import opened Outcomes
  import opened NameLists
  import opened Affinity

  datatype Json =
    | JNull
    | JBool(b: bool)
    | JNumber(n: int)
    | JString(s: string)
    | JArray(items: seq<Json>)
    | JObject(members: seq<Member>)

  datatype Member = Member(key: string, value: Json)

  datatype ParseError = NotAnObject | MalformedEntry(key: Key) | DuplicateKey(key: Key)

  predicate IsNameArray(v: Json) {
    v.JArray? && forall i :: 0 <= i < |v.items| ==> v.items[i].JString?
  }

  /** An entry value: exactly two arrays, each holding only strings. */
  predicate IsEntryValue(v: Json) {
    v.JArray? && |v.items| == 2 && IsNameArray(v.items[0]) && IsNameArray(v.items[1])
  }

  predicate MemberKeysDistinct(ms: seq<Member>) {
    forall i, j :: 0 <= i < j < |ms| ==> ms[i].key != ms[j].key
  }

  /** The values `parse` accepts. */
  predicate WellFormed(v: Json) {
    && v.JObject?
    && MemberKeysDistinct(v.members)
    && forall i :: 0 <= i < |v.members| ==> IsEntryValue(v.members[i].value)
  }

  /** Each name becomes one JSON string, in order. */
  function EncodeNames(names: seq<Name>): (r: seq<Json>)
    ensures |r| == |names|
    ensures forall i :: 0 <= i < |names| ==> r[i] == JString(names[i])
  {
    seq(|names|, i requires 0 <= i < |names| => JString(names[i]))
  }

  function EncodeEntry(e: Entry): Json {
    JArray([JArray(EncodeNames(e.preferred)), JArray(EncodeNames(e.avail))])
  }

  /** The structure `toString` writes for a matrix. */
  function Encode(m: Matrix): (v: Json)
    ensures v.JObject? && |v.members| == |m|
  {
    JObject(seq(|m|, i requires 0 <= i < |m| => Member(m[i].key, EncodeEntry(m[i].entry))))
  }

  /** The strings of an array of names, in order. */
  function DecodeNames(items: seq<Json>): (r: Option<seq<Name>>)
    ensures r.Some? <==> forall i :: 0 <= i < |items| ==> items[i].JString?
    ensures r.Some? ==> EncodeNames(r.value) == items
  {
    if |items| == 0 then Some([])
    else if !items[|items| - 1].JString? then None
    else
      match DecodeNames(items[..|items| - 1])
      case None => None
      case Some(names) =>
        var r := names + [items[|items| - 1].s];
        assert EncodeNames(r) == EncodeNames(names) + [items[|items| - 1]];
        assert items == items[..|items| - 1] + [items[|items| - 1]];
        Some(r)
  }

  function DecodeEntry(v: Json): (r: Option<Entry>)
    ensures r.Some? <==> IsEntryValue(v)
    ensures r.Some? ==> EncodeEntry(r.value) == v
  {
    if !v.JArray? || |v.items| != 2 || !v.items[0].JArray? || !v.items[1].JArray? then None
    else
      match (DecodeNames(v.items[0].items), DecodeNames(v.items[1].items))
      case (Some(preferred), Some(avail)) =>
        assert v.items == [v.items[0], v.items[1]];
        Some(Entry(preferred, avail))
      case _ => None
  }

  /** The rows of an object's members, or the first problem met. */
  function DecodeMembers(ms: seq<Member>): (r: Result<Matrix, ParseError>)
    ensures r.Ok? <==> MemberKeysDistinct(ms) && forall i :: 0 <= i < |ms| ==> IsEntryValue(ms[i].value)
    ensures r.Ok? ==> Encode(r.value) == JObject(ms)
  {
    if |ms| == 0 then Ok([])
    else
      var init, last := ms[..|ms| - 1], ms[|ms| - 1];
      assert ms == init + [last];
      match DecodeMembers(init)
      case Err(e) => Err(e)
      case Ok(rows) =>
        if exists i :: 0 <= i < |init| && init[i].key == last.key then Err(DuplicateKey(last.key))
        else
          match DecodeEntry(last.value)
          case None => Err(MalformedEntry(last.key))
          case Some(e) =>
            var r := rows + [Row(last.key, e)];
            assert Encode(r).members == Encode(rows).members + [Member(last.key, EncodeEntry(e))];
            Ok(r)
  }

  /** `parse`: succeeds (return code 0) exactly on well-formed values, and
      then reproduces the value: `toString` of the parsed matrix is the
      value parsed. */
  function Parse(v: Json): (r: Result<Matrix, ParseError>)
    ensures r.Ok? <==> WellFormed(v)
    ensures r.Ok? ==> Encode(r.value) == v
    ensures v.JObject? && r.Ok? ==> |r.value| == |v.members|
  {
    match v
    case JObject(ms) => DecodeMembers(ms)
    case _ => Err(NotAnObject)
  }

  /** Parsing what `toString` wrote gives back the matrix. */
  lemma ParseEncode(m: Matrix)
    requires KeysDistinct(m)
    ensures Parse(Encode(m)) == Ok(m)
  {
    var v := Encode(m);
    assert WellFormed(v) by {
      forall i | 0 <= i < |m|
        ensures IsEntryValue(v.members[i].value)
      {
        var e := m[i].entry;
        assert DecodeNames(EncodeNames(e.preferred)).Some?;
        assert DecodeNames(EncodeNames(e.avail)).Some?;
      }
    }
    var m' := Parse(v).value;
    EncodeInjective(m', m);
  }

  lemma EncodeNamesInjective(a: seq<Name>, b: seq<Name>)
    requires EncodeNames(a) == EncodeNames(b)
    ensures a == b
  {
    assert forall i :: 0 <= i < |a| ==> EncodeNames(a)[i] == JString(a[i]);
  }

  /** Different matrices are written differently. */
  lemma EncodeInjective(a: Matrix, b: Matrix)
    requires Encode(a) == Encode(b)
    ensures a == b
  {
    forall i | 0 <= i < |a|
      ensures a[i] == b[i]
    {
      assert Encode(a).members[i] == Encode(b).members[i];
      var ea, eb := a[i].entry, b[i].entry;
      assert EncodeEntry(ea) == EncodeEntry(eb);
      EncodeNamesInjective(ea.preferred, eb.preferred);
      EncodeNamesInjective(ea.avail, eb.avail);
    }
  }

  /** The parsed matrix has the members' keys and lists, in input order. */
  lemma ParseKeepsOrder(v: Json, i: nat)
    requires Parse(v).Ok? && i < |v.members|
    ensures Parse(v).value[i].key == v.members[i].key
    ensures EncodeEntry(Parse(v).value[i].entry) == v.members[i].value
  {
    var m := Parse(v).value;
    assert Encode(m).members[i] == v.members[i];
  }

  /** A parsed matrix has one row per key. */
  lemma ParsedKeysDistinct(v: Json)
    requires Parse(v).Ok?
    ensures KeysDistinct(Parse(v).value)
  {
    var m := Parse(v).value;
    forall j, k | 0 <= j < k < |m|
      ensures m[j].key != m[k].key
    {
      assert Encode(m).members[j].key == v.members[j].key;
      assert Encode(m).members[k].key == v.members[k].key;
    }
  }
}
