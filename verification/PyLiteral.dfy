/**
 The Python literals an array header is written in: how they are printed, and the lenient
 parser that reads them back.
 */
module PyLiteral {
  import opened Options
  import opened Decimals
  import opened Sequences

  const UNSIGNED64: nat := 0x1_0000_0000_0000_0000

  datatype Error =
    | InvalidHeader
    | NotADictionary
    | MissingKey(key: string)
    | InvalidString
    | InvalidType
    | InvalidBoolean
    | InvalidTuple
    | InvalidNumber
    | NumberOutOfRange
    | NotAnArrayFile
    | UnsupportedVersion

  datatype Result<+T> = Ok(value: T) | Err(error: Error)

  // ---------------------------------------------------------------------- strings

  predicate Blank(c: char) {
    c == ' ' || c == '\t'
  }

  function TrimStart(s: string): (r: string)
    ensures |r| <= |s|
  {
    if s == "" || !Blank(s[0]) then s else TrimStart(s[1..])
  }

  function TrimEnd(s: string): (r: string)
    ensures |r| <= |s|
  {
    if s == "" || !Blank(s[|s| - 1]) then s else TrimEnd(s[..|s| - 1])
  }

  /** Without the blanks at both ends. */
  function Trim(s: string): (r: string)
    ensures |r| <= |s|
  {
    TrimEnd(TrimStart(s))
  }

  predicate AllBlank(s: string) {
    forall i :: 0 <= i < |s| ==> Blank(s[i])
  }

  /** Blanks neither first nor last. */
  predicate Tight(s: string) {
    s != "" && !Blank(s[0]) && !Blank(s[|s| - 1])
  }

  lemma {:induction false} TrimStartBlanks(a: string, s: string)
    requires AllBlank(a) && Tight(s)
    ensures TrimStart(a + s) == s
  {
    if a == "" {
      assert a + s == s;
    } else {
      assert (a + s)[1..] == a[1..] + s;
      TrimStartBlanks(a[1..], s);
    }
  }

  lemma {:induction false} TrimEndBlanks(s: string, b: string)
    requires AllBlank(b) && Tight(s)
    ensures TrimEnd(s + b) == s
  {
    if b == "" {
      assert s + b == s;
    } else {
      assert (s + b)[..|s + b| - 1] == s + b[..|b| - 1];
      TrimEndBlanks(s, b[..|b| - 1]);
    }
  }

  /** Trimming takes off exactly the blanks around a tight string. */
  lemma TrimBlanks(a: string, s: string, b: string)
    requires AllBlank(a) && AllBlank(b) && Tight(s)
    ensures Trim(a + s + b) == s
  {
    assert a + s + b == a + (s + b);
    LeadingBlanks(a, s, b);
    TrimEndBlanks(s, b);
  }

  lemma {:induction false} LeadingBlanks(a: string, s: string, b: string)
    requires AllBlank(a) && Tight(s)
    ensures TrimStart(a + (s + b)) == s + b
  {
    if a == "" {
      assert a + (s + b) == s + b;
    } else {
      assert (a + (s + b))[1..] == a[1..] + (s + b);
      LeadingBlanks(a[1..], s, b);
    }
  }

  /** The first place `c` is at, or the length. */
  function IndexOf(s: string, c: char): (i: nat)
    ensures i <= |s|
  {
    if s == "" || s[0] == c then 0 else IndexOf(s[1..], c) + 1
  }

  predicate Without(s: string, c: char) {
    forall i :: 0 <= i < |s| ==> s[i] != c
  }

  lemma {:induction false} IndexAfter(a: string, c: char, b: string)
    requires Without(a, c)
    ensures IndexOf(a + [c] + b, c) == |a|
    ensures IndexOf(a, c) == |a|
  {
    if a != "" {
      assert (a + [c] + b)[1..] == a[1..] + [c] + b;
      IndexAfter(a[1..], c, b);
    }
  }

  /** The first place the pattern is at. */
  function Find(s: string, pattern: string): (i: Option<nat>)
    ensures i.Some? ==> i.value + |pattern| <= |s| && s[i.value..i.value + |pattern|] == pattern
  {
    if pattern <= s then Some(0)
    else if s == "" then None
    else
      match Find(s[1..], pattern)
      case Some(i) =>
        assert s[1..][i..i + |pattern|] == s[i + 1..i + 1 + |pattern|];
        Some(i + 1)
      case None => None
  }

  // ------------------------------------------------------------------ dictionaries

  /** What follows the first colon. */
  function ValueOf(entry: string): string {
    var at := IndexOf(entry, ':');
    if at == |entry| then "" else Trim(entry[at + 1..])
  }

  datatype Place = Place(at: nat, key: string)

  function Quoted(s: string): string {
    "'" + s + "'"
  }

  function Places(text: string, keys: seq<string>): (r: Result<seq<Place>>)
    ensures r.Ok? ==> |r.value| == |keys| && forall i :: 0 <= i < |keys| ==> r.value[i].at <= |text|
  {
    if keys == [] then Ok([])
    else
      var n := |keys| - 1;
      match Places(text, keys[..n])
      case Err(e) => Err(e)
      case Ok(places) =>
        match Find(text, Quoted(keys[n]))
        case None => Err(MissingKey(keys[n]))
        case Some(at) => Ok(places + [Place(at, keys[n])])
  }

  function InsertPlace(p: Place, sorted: seq<Place>): (r: seq<Place>)
    ensures |r| == |sorted| + 1
    ensures forall q :: q in r <==> q == p || q in sorted
  {
    if sorted == [] || p.at < sorted[0].at then [p] + sorted
    else
      assert sorted == [sorted[0]] + sorted[1..];
      [sorted[0]] + InsertPlace(p, sorted[1..])
  }

  function SortPlaces(places: seq<Place>): (r: seq<Place>)
    ensures |r| == |places|
    ensures forall q :: q in r <==> q in places
  {
    if places == [] then []
    else
      var n := |places| - 1;
      assert places == places[..n] + [places[n]];
      InsertPlace(places[n], SortPlaces(places[..n]))
  }

  predicate Ascending(places: seq<Place>) {
    forall i, j :: 0 <= i < j < |places| ==> places[i].at <= places[j].at
  }

  lemma {:induction false} InsertKeepsAscending(p: Place, sorted: seq<Place>)
    requires Ascending(sorted)
    ensures Ascending(InsertPlace(p, sorted))
  {
    if !(sorted == [] || p.at < sorted[0].at) {
      var rest := InsertPlace(p, sorted[1..]);
      InsertKeepsAscending(p, sorted[1..]);
      forall i | 0 <= i < |rest|
        ensures sorted[0].at <= rest[i].at
      {
        assert rest[i] in rest;
        if rest[i] != p {
          assert rest[i] in sorted[1..];
          var k :| 0 <= k < |sorted[1..]| && sorted[1..][k] == rest[i];
          assert sorted[k + 1] == rest[i];
        }
      }
    }
  }

  lemma {:induction false} SortIsAscending(places: seq<Place>)
    ensures Ascending(SortPlaces(places))
  {
    if places != [] {
      SortIsAscending(places[..|places| - 1]);
      InsertKeepsAscending(places[|places| - 1], SortPlaces(places[..|places| - 1]));
    }
  }

  lemma {:induction false} InsertLast(p: Place, sorted: seq<Place>)
    requires forall i :: 0 <= i < |sorted| ==> sorted[i].at <= p.at
    ensures InsertPlace(p, sorted) == sorted + [p]
  {
    if sorted != [] {
      InsertLast(p, sorted[1..]);
      assert sorted == [sorted[0]] + sorted[1..];
    }
  }

  /** Sorting leaves places that are in order alone. */
  lemma {:induction false} SortOfAscending(places: seq<Place>)
    requires Ascending(places)
    ensures SortPlaces(places) == places
  {
    if places != [] {
      var n := |places| - 1;
      SortOfAscending(places[..n]);
      InsertLast(places[n], places[..n]);
      assert places == places[..n] + [places[n]];
    }
  }

  /** The text of the `i`-th entry: up to the next key, without its comma. */
  function Entry(text: string, places: seq<Place>, i: nat): string
    requires i < |places| && Ascending(places) && forall k :: 0 <= k < |places| ==> places[k].at <= |text|
  {
    var end := if i + 1 < |places| then places[i + 1].at else |text|;
    var raw := Trim(text[places[i].at..end]);
    if raw != "" && raw[|raw| - 1] == ',' then raw[..|raw| - 1] else raw
  }

  function Entries(text: string, places: seq<Place>, n: nat): map<string, string>
    requires n <= |places| && Ascending(places) && forall k :: 0 <= k < |places| ==> places[k].at <= |text|
  {
    if n == 0 then map[] else Entries(text, places, n - 1)[places[n - 1].key := ValueOf(Entry(text, places, n - 1))]
  }

  /** The text between `open` and `close`, blanks around them aside. */
  function Unwrapped(text: string, open: char, close: char): Option<string> {
    var t := Trim(text);
    if t != "" && t[0] == open && t[|t| - 1] == close then Some(if |t| == 1 then "" else t[1..|t| - 1]) else None
  }

  lemma PlacesInText(text: string, keys: seq<string>)
    requires Places(text, keys).Ok?
    ensures var sorted := SortPlaces(Places(text, keys).value);
      Ascending(sorted) && forall k :: 0 <= k < |sorted| ==> sorted[k].at <= |text|
  {
    var places := Places(text, keys).value;
    SortIsAscending(places);
    forall k | 0 <= k < |places|
      ensures SortPlaces(places)[k].at <= |text|
    {
      assert SortPlaces(places)[k] in places;
    }
  }

  function DictOf(input: string, keys: seq<string>): Result<map<string, string>> {
    if keys == [] then Ok(map[])
    else
      match Unwrapped(input, '{', '}')
      case None => Err(NotADictionary)
      case Some(text) =>
        match Places(text, keys)
        case Err(e) => Err(e)
        case Ok(places) =>
          PlacesInText(text, keys);
          Ok(Entries(text, SortPlaces(places), |places|))
  }

  /** Where every key is first mentioned. */
  method FindPlaces(text: string, keys: seq<string>) returns (places: Result<seq<Place>>)
    ensures places == Places(text, keys)
  {
    var found: seq<Place> := [];
    for i := 0 to |keys|
      invariant Places(text, keys[..i]) == Ok(found)
    {
      assert keys[..i + 1][..i] == keys[..i];
      var at := Find(text, Quoted(keys[i]));
      if at.None? {
        MissingStaysMissing(text, keys, i + 1);
        return Err(MissingKey(keys[i]));
      }
      found := found + [Place(at.value, keys[i])];
    }
    assert keys[..|keys|] == keys;
    places := Ok(found);
  }

  /** The values of the given keys. */
  method ParseDict(input: string, keys: seq<string>) returns (dict: Result<map<string, string>>)
    ensures dict == DictOf(input, keys)
  {
    if keys == [] {
      return Ok(map[]);
    }
    var inner := Unwrapped(input, '{', '}');
    if inner.None? {
      return Err(NotADictionary);
    }
    var found := FindPlaces(inner.value, keys);
    if found.Err? {
      return Err(found.error);
    }
    PlacesInText(inner.value, keys);
    var sorted := SortPlaces(found.value);
    var values: map<string, string> := map[];
    for i := 0 to |sorted|
      invariant values == Entries(inner.value, sorted, i)
    {
      values := values[sorted[i].key := ValueOf(Entry(inner.value, sorted, i))];
    }
    dict := Ok(values);
  }

  lemma {:induction false} MissingStaysMissing(text: string, keys: seq<string>, i: nat)
    requires i <= |keys| && Places(text, keys[..i]).Err?
    ensures Places(text, keys) == Places(text, keys[..i])
  {
    if i == |keys| {
      assert keys[..i] == keys;
    } else {
      assert keys[..|keys| - 1][..i] == keys[..i];
      MissingStaysMissing(text, keys[..|keys| - 1], i);
    }
  }

  // --------------------------------------------------------------- simple literals

  function WriteBoolean(b: bool): string {
    if b then "True" else "False"
  }

  function ParseBool(s: string): Result<bool> {
    if s == "True" then Ok(true) else if s == "False" then Ok(false) else Err(InvalidBoolean)
  }

  function ParseStr(s: string): Result<string> {
    if s != "" && s[0] == '\'' && s[|s| - 1] == '\'' then Ok(if |s| == 1 then "" else s[1..|s| - 1])
    else Err(InvalidString)
  }

  // ----------------------------------------------------------------------- numbers

  predicate Space(c: char) {
    c == ' ' || '\t' <= c <= '\r'
  }

  function SkipSpace(s: string): string {
    if s == "" || !Space(s[0]) then s else SkipSpace(s[1..])
  }

  /** The digits the string starts with. */
  function LeadingDigits(s: string): (d: string)
    ensures AllDigits(d)
  {
    if s == "" || !IsDigit(s[0]) then "" else [s[0]] + LeadingDigits(s[1..])
  }

  /** An unsigned number after optional space and sign; what follows the digits is ignored. */
  function Stoul(s: string): (r: Result<nat>)
    ensures r.Ok? ==> r.value < UNSIGNED64
  {
    var t := SkipSpace(s);
    var negative := t != "" && t[0] == '-';
    var digits := LeadingDigits(if t != "" && (t[0] == '-' || t[0] == '+') then t[1..] else t);
    if digits == "" then Err(InvalidNumber)
    else
      var v := ValueOfDigits(digits);
      if v >= UNSIGNED64 then Err(NumberOutOfRange)
      else if negative && v > 0 then Ok(UNSIGNED64 - v)
      else Ok(v)
  }

  lemma {:induction false} AllLeadingDigits(s: string)
    requires AllDigits(s)
    ensures LeadingDigits(s) == s
  {
    if s != "" {
      AllLeadingDigits(s[1..]);
    }
  }

  lemma StoulOfDigits(s: string, space: bool)
    requires AllDigits(s) && s != "" && ValueOfDigits(s) < UNSIGNED64
    ensures Stoul((if space then " " else "") + s) == Ok(ValueOfDigits(s))
  {
    AllLeadingDigits(s);
    assert IsDigit(s[0]);
    assert SkipSpace(s) == s;
    if space {
      assert (" " + s)[1..] == s;
    } else {
      assert "" + s == s;
    }
  }

  /** A printed number is read back, with or without a space before it. */
  lemma NumberRoundTrip(n: nat, space: bool)
    requires n < UNSIGNED64
    ensures Stoul((if space then " " else "") + Decimal(n)) == Ok(n)
  {
    DecimalRoundTrip(n);
    StoulOfDigits(Decimal(n), space);
  }

  // ------------------------------------------------------------------------ tuples

  /** The items, with a comma and a space between them. */
  function Joined(v: seq<nat>): string {
    if v == [] then "" else if |v| == 1 then Decimal(v[0]) else Decimal(v[0]) + ", " + Joined(v[1..])
  }

  function WriteTuple(v: seq<nat>): string {
    if |v| == 0 then "()" else if |v| == 1 then "(" + Decimal(v[0]) + ",)" else "(" + Joined(v) + ")"
  }

  /** The pieces between commas; nothing after a comma at the end. */
  function Tokens(s: string): seq<string>
    decreases |s|
  {
    if s == "" then []
    else
      var at := IndexOf(s, ',');
      if at == |s| then [s] else [s[..at]] + Tokens(s[at + 1..])
  }

  function ParseTuple(input: string): Result<seq<string>> {
    match Unwrapped(input, '(', ')')
    case None => Err(InvalidTuple)
    case Some(text) => Ok(Tokens(text))
  }

  function Numbers(items: seq<string>): Result<seq<nat>> {
    if items == [] then Ok([])
    else
      match Stoul(items[0])
      case Err(e) => Err(e)
      case Ok(x) =>
        match Numbers(items[1..])
        case Err(e) => Err(e)
        case Ok(v) => Ok([x] + v)
  }

  /** Items as they come out of a written tuple: a space before all but the first. */
  function Items(v: seq<nat>, space: bool): (items: seq<string>)
    ensures |items| == |v|
  {
    if v == [] then [] else [(if space then " " else "") + Decimal(v[0])] + Items(v[1..], true)
  }

  lemma DigitsHaveNo(s: string, c: char)
    requires AllDigits(s) && !IsDigit(c)
    ensures Without(s, c)
  {
  }

  lemma FirstToken(first: string, rest: string)
    requires Without(first, ',')
    ensures Tokens(first + [','] + rest) == [first] + Tokens(rest)
  {
    var s := first + [','] + rest;
    IndexAfter(first, ',', rest);
    assert s[..|first|] == first && s[|first| + 1..] == rest;
  }

  lemma {:induction false} TokensOfJoined(v: seq<nat>, space: bool)
    requires v != []
    ensures Tokens((if space then " " else "") + Joined(v)) == Items(v, space)
    decreases |v|
  {
    var first := (if space then " " else "") + Decimal(v[0]);
    DecimalRoundTrip(v[0]);
    DigitsHaveNo(Decimal(v[0]), ',');
    assert Without(first, ',');
    if |v| == 1 {
      IndexAfter(first, ',', "");
      assert Items(v[1..], true) == [];
    } else {
      TokensOfJoined(v[1..], true);
      JoinedFirst(v, space, first, " " + Joined(v[1..]));
      FirstToken(first, " " + Joined(v[1..]));
    }
  }

  lemma JoinedFirst(v: seq<nat>, space: bool, first: string, rest: string)
    requires |v| > 1 && first == (if space then " " else "") + Decimal(v[0]) && rest == " " + Joined(v[1..])
    ensures (if space then " " else "") + Joined(v) == first + [','] + rest
  {
    assert ", " == [','] + " ";
    Regroup(if space then " " else "", Decimal(v[0]), [','], " ", Joined(v[1..]));
  }

  lemma NumbersFirst(first: string, rest: seq<string>, n: nat, v: seq<nat>)
    requires Stoul(first) == Ok(n) && Numbers(rest) == Ok(v)
    ensures Numbers([first] + rest) == Ok([n] + v)
  {
    assert ([first] + rest)[1..] == rest;
  }

  lemma {:induction false} NumbersOfItems(v: seq<nat>, space: bool)
    requires forall i :: 0 <= i < |v| ==> v[i] < UNSIGNED64
    ensures Numbers(Items(v, space)) == Ok(v)
  {
    if v != [] {
      NumbersOfItems(v[1..], true);
      NumberRoundTrip(v[0], space);
      NumbersFirst((if space then " " else "") + Decimal(v[0]), Items(v[1..], true), v[0], v[1..]);
      assert v == [v[0]] + v[1..];
    }
  }

  lemma UnwrapTight(open: char, s: string, close: char)
    requires !Blank(open) && !Blank(close)
    ensures Unwrapped([open] + s + [close], open, close) == Some(s)
  {
    var t := [open] + s + [close];
    TrimBlanks("", t, "");
    assert "" + t + "" == t;
    assert t[1..|t| - 1] == s;
  }

  /** A written tuple of any length is read back. */
  lemma TupleRoundTrip(v: seq<nat>)
    requires forall i :: 0 <= i < |v| ==> v[i] < UNSIGNED64
    ensures ParseTuple(WriteTuple(v)).Ok? && Numbers(ParseTuple(WriteTuple(v)).value) == Ok(v)
  {
    NumbersOfItems(v, false);
    if |v| == 0 {
      UnwrapTight('(', "", ')');
      assert "()" == "(" + "" + ")";
    } else if |v| == 1 {
      var s := Decimal(v[0]);
      assert WriteTuple(v) == "(" + (s + ",") + ")";
      UnwrapTight('(', s + ",", ')');
      DecimalRoundTrip(v[0]);
      IndexAfter(s, ',', "");
      assert s + [','] + "" == s + ",";
      assert (s + ",")[..|s|] == s && (s + ",")[|s| + 1..] == "";
      assert Items(v[1..], true) == [] && "" + s == s;
      assert Items(v, false) == [s];
      assert Tokens(s + ",") == [s];
    } else {
      UnwrapTight('(', Joined(v), ')');
      TokensOfJoined(v, false);
      assert "" + Joined(v) == Joined(v);
    }
  }

  method ParseTupleItems(input: string) returns (items: Result<seq<string>>)
    ensures items == ParseTuple(input)
  {
    var inner := Unwrapped(input, '(', ')');
    if inner.None? {
      return Err(InvalidTuple);
    }
    var v: seq<string> := [];
    var rest := inner.value;
    while rest != ""
      invariant v + Tokens(rest) == Tokens(inner.value)
      decreases |rest|
    {
      var at := IndexOf(rest, ',');
      if at == |rest| {
        assert Tokens(rest) == [rest];
        v := v + [rest];
        rest := "";
      } else {
        assert Tokens(rest) == [rest[..at]] + Tokens(rest[at + 1..]);
        v := v + [rest[..at]];
        rest := rest[at + 1..];
      }
    }
    assert v == Tokens(inner.value);
    items := Ok(v);
  }
}
