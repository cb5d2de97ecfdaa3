/**
 The header of an `.npy` array file: written to a stream, read back and parsed. Bytes are the
 characters of their value.
 */
module NpyHeader {
  import opened Options
  import opened Decimals
  import opened Sequences
  import opened PyLiteral

  datatype DType = DType(byteorder: char, kind: char, itemsize: nat)

  datatype Header = Header(dtype: DType, fortran: bool, shape: seq<nat>)

  const MAGIC: string := ['\U{93}', 'N', 'U', 'M', 'P', 'Y']

  const ENDIANS: string := "<>|"
  const KINDS: string := "fiuc"

  /** What an element type of the library looks like. */
  predicate ValidType(d: DType) {
    d.byteorder in ENDIANS && d.kind in KINDS && d.itemsize < 0x1_0000_0000
  }

  /** The fields fit their machine types. */
  predicate Representable(h: Header) {
    h.dtype.itemsize < 0x1_0000_0000 && forall i :: 0 <= i < |h.shape| ==> h.shape[i] < UNSIGNED64
  }

  // ---------------------------------------------------------------- the dictionary

  function TypeString(d: DType): string {
    [d.byteorder, d.kind] + Decimal(d.itemsize)
  }

  function ParseDescr(s: string): (r: Result<DType>)
    ensures r.Ok? ==> ValidType(r.value)
  {
    if |s| < 3 || s[0] !in ENDIANS || s[1] !in KINDS || !AllDigits(s[2..]) then Err(InvalidType)
    else
      match Stoul(s[2..])
      case Err(e) => Err(e)
      case Ok(n) => Ok(DType(s[0], s[1], n % 0x1_0000_0000))
  }

  lemma DescrOfParts(byteorder: char, kind: char, digits: string, n: nat)
    requires byteorder in ENDIANS && kind in KINDS && AllDigits(digits) && digits != ""
    requires Stoul(digits) == Ok(n) && n < 0x1_0000_0000
    ensures ParseDescr([byteorder, kind] + digits) == Ok(DType(byteorder, kind, n))
  {
    assert ([byteorder, kind] + digits)[2..] == digits;
  }

  lemma TypeRoundTrip(d: DType)
    requires ValidType(d)
    ensures ParseDescr(TypeString(d)) == Ok(d)
  {
    DecimalRoundTrip(d.itemsize);
    StoulOfDigits(Decimal(d.itemsize), false);
    NothingBefore(Decimal(d.itemsize));
    DescrOfParts(d.byteorder, d.kind, Decimal(d.itemsize), d.itemsize);
  }

  /** The entries between the braces. */
  function DictText(h: Header): string {
    EntryText("descr", Quoted(TypeString(h.dtype)))
    + (EntryText("fortran_order", WriteBoolean(h.fortran)) + EntryText("shape", WriteTuple(h.shape)))
  }

  function EntryText(key: string, value: string): string {
    Quoted(key) + ": " + value + ", "
  }

  function HeaderDict(h: Header): (s: string)
    ensures |s| >= 2
  {
    "{" + DictText(h) + "}"
  }

  const KEYS: seq<string> := ["descr", "fortran_order", "shape"]

  /** A header's text, up to and with its line break, read as a dictionary. */
  function HeaderOf(text: string): (r: Result<Header>)
    ensures r.Ok? ==> ValidType(r.value.dtype)
  {
    if text == "" || text[|text| - 1] != '\n' then Err(InvalidHeader)
    else
      match DictOf(text[..|text| - 1], KEYS)
      case Err(e) => Err(e)
      case Ok(dict) => HeaderFrom(dict)
  }

  function Lookup(dict: map<string, string>, key: string): string {
    if key in dict then dict[key] else ""
  }

  function HeaderFrom(dict: map<string, string>): (r: Result<Header>)
    ensures r.Ok? ==> ValidType(r.value.dtype)
  {
    match ParseStr(Lookup(dict, "descr"))
    case Err(e) => Err(e)
    case Ok(descr) =>
      match ParseDescr(descr)
      case Err(e) => Err(e)
      case Ok(dtype) =>
        match ParseBool(Lookup(dict, "fortran_order"))
        case Err(e) => Err(e)
        case Ok(fortran) =>
          match ParseTuple(Lookup(dict, "shape"))
          case Err(e) => Err(e)
          case Ok(items) =>
            match Numbers(items)
            case Err(e) => Err(e)
            case Ok(shape) => Ok(Header(dtype, fortran, shape))
  }

  lemma {:induction false} NumbersJoin(a: seq<string>, b: seq<string>)
    requires Numbers(a).Ok?
    ensures Numbers(a + b)
         == match Numbers(b) case Err(e) => Err(e) case Ok(v) => Ok(Numbers(a).value + v)
  {
    if a == [] {
      assert a + b == b;
      assert Numbers(b).Ok? ==> [] + Numbers(b).value == Numbers(b).value;
    } else {
      assert (a + b)[1..] == a[1..] + b;
      NumbersJoin(a[1..], b);
      if Numbers(b).Ok? {
        JoinAll([Stoul(a[0]).value], Numbers(a[1..]).value, Numbers(b).value);
      }
    }
  }

  method ParseNumbers(items: seq<string>) returns (shape: Result<seq<nat>>)
    ensures shape == Numbers(items)
  {
    var v: seq<nat> := [];
    for i := 0 to |items|
      invariant Numbers(items[..i]) == Ok(v)
    {
      var dim := Stoul(items[i]);
      SplitAt(items, i);
      NumbersJoin(items[..i], items[i..]);
      NumbersJoin(items[..i], [items[i]]);
      if dim.Err? {
        return Err(dim.error);
      }
      assert [dim.value] + [] == [dim.value] && [items[i]][1..] == [];
      assert Numbers([items[i]]) == Ok([dim.value]);
      v := v + [dim.value];
    }
    assert items[..|items|] == items;
    shape := Ok(v);
  }

  method ParseHeader(text: string) returns (header: Result<Header>)
    ensures header == HeaderOf(text)
  {
    if text == "" || text[|text| - 1] != '\n' {
      return Err(InvalidHeader);
    }
    var parsed := ParseDict(text[..|text| - 1], KEYS);
    if parsed.Err? {
      return Err(parsed.error);
    }
    var dict := parsed.value;
    var descr := ParseStr(Lookup(dict, "descr"));
    if descr.Err? {
      return Err(descr.error);
    }
    var dtype := ParseDescr(descr.value);
    if dtype.Err? {
      return Err(dtype.error);
    }
    var fortran := ParseBool(Lookup(dict, "fortran_order"));
    if fortran.Err? {
      return Err(fortran.error);
    }
    var items := ParseTupleItems(Lookup(dict, "shape"));
    if items.Err? {
      return Err(items.error);
    }
    var shape := ParseNumbers(items.value);
    if shape.Err? {
      return Err(shape.error);
    }
    header := Ok(Header(dtype.value, fortran.value, shape.value));
  }

  // ------------------------------------------------------------- finding the keys

  /** No quote in `a`, followed by `next`, has `c` right after it. */
  predicate NoKey(a: string, next: char, c: char) {
    forall i :: 0 <= i < |a| && a[i] == '\'' ==> (if i + 1 < |a| then a[i + 1] else next) != c
  }

  lemma NoKeyJoin(a: string, b: string, next: char, c: char)
    requires b != "" && NoKey(a, b[0], c) && NoKey(b, next, c)
    ensures NoKey(a + b, next, c)
  {
    var s := a + b;
    forall i | 0 <= i < |s| && s[i] == '\''
      ensures (if i + 1 < |s| then s[i + 1] else next) != c
    {
      if i < |a| {
        assert (if i + 1 < |a| then a[i + 1] else b[0]) != c;
        assert i + 1 >= |a| ==> s[i + 1] == b[0];
      } else {
        var k := i - |a|;
        assert b[k] == '\'';
        assert (if k + 1 < |b| then b[k + 1] else next) != c;
        assert i + 1 < |s| ==> s[i + 1] == b[k + 1];
      }
    }
  }

  /** A key is first found where it stands, if nothing before it looks like it. */
  lemma {:induction false} FindsKey(a: string, key: string, b: string)
    requires key != "" && NoKey(a, '\'', key[0])
    requires key[0] != '\''
    ensures Find(a + (Quoted(key) + b), Quoted(key)) == Some(|a|)
  {
    var s := a + (Quoted(key) + b);
    if a == "" {
      assert s == Quoted(key) + b;
    } else {
      assert Quoted(key)[0] == '\'' && Quoted(key)[1] == key[0];
      assert s[0] == a[0] && s[1] == if |a| > 1 then a[1] else '\'';
      assert s[1..] == a[1..] + (Quoted(key) + b);
      assert forall i :: 0 <= i < |a[1..]| ==> a[1..][i] == a[i + 1];
      FindsKey(a[1..], key, b);
    }
  }

  // -------------------------------------------------------------- reading an entry

  lemma TrimmedEntry(key: string, value: string)
    requires Tight(value)
    ensures Trim(EntryText(key, value)) == Quoted(key) + ": " + value + ","
  {
    var s := Quoted(key) + ": " + value + ",";
    TrimBlanks("", s, " ");
    assert EntryText(key, value) == "" + s + " ";
  }

  lemma ValueOfEntry(key: string, value: string)
    requires Tight(value) && Without(key, ':')
    ensures ValueOf(Quoted(key) + ": " + value) == value
  {
    var s := Quoted(key) + ": " + value;
    assert s == Quoted(key) + [':'] + (" " + value);
    IndexAfter(Quoted(key), ':', " " + value);
    assert s[|Quoted(key)| + 1..] == " " + value;
    TrimBlanks(" ", value, "");
    assert " " + value == " " + value + "";
  }

  /** An entry that stands in the text from its place to the next gives its value. */
  lemma EntryHasValue(text: string, places: seq<Place>, i: nat, key: string, value: string)
    requires i < |places| && Ascending(places) && forall k :: 0 <= k < |places| ==> places[k].at <= |text|
    requires text[places[i].at..if i + 1 < |places| then places[i + 1].at else |text|] == EntryText(key, value)
    requires Tight(value) && Without(key, ':')
    ensures ValueOf(Entry(text, places, i)) == value
  {
    TrimmedEntry(key, value);
    var raw := Quoted(key) + ": " + value + ",";
    assert raw[..|raw| - 1] == Quoted(key) + ": " + value;
    ValueOfEntry(key, value);
  }

  // ------------------------------------------------------------- the whole text

  predicate Plain(key: string) {
    key != "" && key[0] != '\''
  }

  /** Three entries that hide no later key are found in their order. */
  lemma ThreePlaces(text: string, k0: string, k1: string, k2: string, v0: string, v1: string, v2: string, a: string, b: string,
                    p0: nat, p1: nat, p2: nat)
    requires p0 == 0 && p1 == |a| && p2 == |a| + |b|
    requires Plain(k0) && Plain(k1) && Plain(k2)
    requires a == EntryText(k0, v0) && b == EntryText(k1, v1) && text == a + (b + EntryText(k2, v2))
    requires NoKey(a, '\'', k1[0]) && NoKey(a + b, '\'', k2[0])
    ensures Places(text, [k0, k1, k2]) == Ok([Place(p0, k0), Place(p1, k1), Place(p2, k2)])
  {
    var c := EntryText(k2, v2);
    assert text == "" + (a + (b + c));
    EntryFound(text, "", k0, v0, b + c, p0);
    EntryFound(text, a, k1, v1, c, p1);
    JoinAll(a, b, c);
    assert c + "" == c;
    EntryFound(text, a + b, k2, v2, "", p2);
    PlacesOfThree(text, k0, k1, k2, p0, p1, p2);
  }

  lemma BeginningsHideNoKey(v0: string, v1: string)
    requires v0 != "" && v1 != ""
    requires forall c :: c in "fs" ==> NoKey(v0, ',', c) && NoKey(v1, ',', c)
    ensures NoKey(EntryText("descr", v0), '\'', 'f')
    ensures NoKey(EntryText("descr", v0) + EntryText("fortran_order", v1), '\'', 's')
  {
    EntryHidesNoKey("descr", v0, 'f');
    EntryHidesNoKey("descr", v0, 's');
    EntryHidesNoKey("fortran_order", v1, 's');
    NoKeyJoin(EntryText("descr", v0), EntryText("fortran_order", v1), '\'', 's');
  }

  lemma EntryFound(text: string, a: string, key: string, value: string, rest: string, at: nat)
    requires key != "" && key[0] != '\'' && NoKey(a, '\'', key[0])
    requires text == a + (EntryText(key, value) + rest) && at == |a|
    ensures Find(text, Quoted(key)) == Some(at)
  {
    FindsKey(a, key, ": " + value + ", " + rest);
    EntryApart(Quoted(key), ": ", value, ", ", rest);
  }

  lemma EntryApart<T>(a: seq<T>, b: seq<T>, c: seq<T>, d: seq<T>, e: seq<T>)
    ensures (((a + b) + c) + d) + e == a + (((b + c) + d) + e)
  {
  }

  lemma PlacesMore(text: string, keys: seq<string>, key: string, places: seq<Place>, at: nat)
    requires Places(text, keys) == Ok(places) && Find(text, Quoted(key)) == Some(at)
    ensures Places(text, keys + [key]) == Ok(places + [Place(at, key)])
  {
    assert (keys + [key])[..|keys|] == keys;
  }

  lemma PlacesOfThree(text: string, k0: string, k1: string, k2: string, p0: nat, p1: nat, p2: nat)
    requires Find(text, Quoted(k0)) == Some(p0)
    requires Find(text, Quoted(k1)) == Some(p1)
    requires Find(text, Quoted(k2)) == Some(p2)
    ensures Places(text, [k0, k1, k2]) == Ok([Place(p0, k0), Place(p1, k1), Place(p2, k2)])
  {
    PlacesMore(text, [], k0, [], p0);
    PlacesMore(text, [] + [k0], k1, [] + [Place(p0, k0)], p1);
    PlacesMore(text, [] + [k0] + [k1], k2, [] + [Place(p0, k0)] + [Place(p1, k1)], p2);
    assert [k0, k1, k2] == [] + [k0] + [k1] + [k2];
    assert [] + [Place(p0, k0)] + [Place(p1, k1)] + [Place(p2, k2)] == [Place(p0, k0), Place(p1, k1), Place(p2, k2)];
  }

  lemma EntryHidesNoKey(key: string, value: string, c: char)
    requires key != "" && Without(key, '\'') && key[0] != c && value != "" && NoKey(value, ',', c)
    requires c != ':'
    ensures NoKey(EntryText(key, value), '\'', c)
  {
    assert NoKey(Quoted(key) + ": ", value[0], c);
    NoKeyJoin(value, ", ", '\'', c);
    NoKeyJoin(Quoted(key) + ": ", value + ", ", '\'', c);
    assert EntryText(key, value) == Quoted(key) + ": " + (value + ", ");
  }

  lemma ThreeCuts(text: string, a: string, b: string, c: string, p1: nat, p2: nat)
    requires text == a + (b + c) && p1 == |a| && p2 == |a| + |b|
    ensures p2 <= |text| && text[0..p1] == a && text[p1..p2] == b && text[p2..|text|] == c
  {
  }

  /** Three entries in a row give their three values. */
  lemma ThreeValues(text: string, k0: string, k1: string, k2: string, v0: string, v1: string, v2: string,
                    a: string, b: string, c: string, p1: nat, p2: nat, places: seq<Place>)
    requires a == EntryText(k0, v0) && b == EntryText(k1, v1) && c == EntryText(k2, v2) && text == a + (b + c)
    requires Without(k0, ':') && Without(k1, ':') && Without(k2, ':') && Tight(v0) && Tight(v1) && Tight(v2)
    requires p1 == |a| && p2 == |a| + |b| && places == [Place(0, k0), Place(p1, k1), Place(p2, k2)]
    ensures Ascending(places) && SortPlaces(places) == places
    ensures (forall k :: 0 <= k < 3 ==> places[k].at <= |text|)
    ensures ValueOf(Entry(text, places, 0)) == v0
    ensures ValueOf(Entry(text, places, 1)) == v1
    ensures ValueOf(Entry(text, places, 2)) == v2
  {
    SortOfAscending(places);
    ThreeCuts(text, a, b, c, p1, p2);
    EntryHasValue(text, places, 0, k0, v0);
    EntryHasValue(text, places, 1, k1, v1);
    EntryHasValue(text, places, 2, k2, v2);
  }

  lemma ThreeEntries(text: string, places: seq<Place>, values: seq<string>)
    requires |places| == 3 == |values| && Ascending(places) && forall k :: 0 <= k < 3 ==> places[k].at <= |text|
    requires forall k :: 0 <= k < 3 ==> ValueOf(Entry(text, places, k)) == values[k]
    ensures Entries(text, places, 3)
         == map[places[0].key := values[0]][places[1].key := values[1]][places[2].key := values[2]]
  {
    assert ValueOf(Entry(text, places, 0)) == values[0];
    assert ValueOf(Entry(text, places, 1)) == values[1];
    assert ValueOf(Entry(text, places, 2)) == values[2];
    assert Entries(text, places, 0) == map[];
    assert Entries(text, places, 1) == map[places[0].key := values[0]];
    assert Entries(text, places, 2) == map[places[0].key := values[0]][places[1].key := values[1]];
  }

  /** The values of a written header hide no key. */
  lemma ValuesHideNoKey(h: Header, c: char)
    requires ValidType(h.dtype) && c in "fs"
    ensures NoKey(Quoted(TypeString(h.dtype)), ',', c) && NoKey(WriteBoolean(h.fortran), ',', c)
  {
    DecimalRoundTrip(h.dtype.itemsize);
    var s := Quoted(TypeString(h.dtype));
    assert s[1] == h.dtype.byteorder && s[2] == h.dtype.kind;
    assert forall i :: 3 <= i < |s| - 1 ==> s[i] == Decimal(h.dtype.itemsize)[i - 3];
  }

  lemma TupleIsTight(v: seq<nat>)
    ensures Tight(WriteTuple(v))
  {
  }

  lemma DictRoundTrip(h: Header)
    requires ValidType(h.dtype)
    ensures DictOf(HeaderDict(h), KEYS)
         == Ok(map["descr" := Quoted(TypeString(h.dtype)), "fortran_order" := WriteBoolean(h.fortran),
                   "shape" := WriteTuple(h.shape)])
  {
    var k0, k1, k2 := "descr", "fortran_order", "shape";
    var v0, v1, v2 := Quoted(TypeString(h.dtype)), WriteBoolean(h.fortran), WriteTuple(h.shape);
    forall c | c in "fs" ensures NoKey(v0, ',', c) && NoKey(v1, ',', c) {
      ValuesHideNoKey(h, c);
    }
    BeginningsHideNoKey(v0, v1);
    TupleIsTight(h.shape);
    var a, b := EntryText(k0, v0), EntryText(k1, v1);
    DictOfThree(DictText(h), k0, k1, k2, v0, v1, v2, a, b, EntryText(k2, v2), 0, |a|, |a| + |b|);
    assert KEYS == [k0, k1, k2];
    assert map[k0 := v0][k1 := v1][k2 := v2] == map[k0 := v0, k1 := v1, k2 := v2];
  }

  lemma DictOfThree(text: string, k0: string, k1: string, k2: string, v0: string, v1: string, v2: string,
                    a: string, b: string, c: string, p0: nat, p1: nat, p2: nat)
    requires a == EntryText(k0, v0) && b == EntryText(k1, v1) && c == EntryText(k2, v2) && text == a + (b + c)
    requires p0 == 0 && p1 == |a| && p2 == |a| + |b|
    requires Plain(k0) && Plain(k1) && Plain(k2)
    requires NoKey(a, '\'', k1[0]) && NoKey(a + b, '\'', k2[0])
    requires Without(k0, ':') && Without(k1, ':') && Without(k2, ':') && Tight(v0) && Tight(v1) && Tight(v2)
    ensures DictOf("{" + text + "}", [k0, k1, k2]) == Ok(map[k0 := v0][k1 := v1][k2 := v2])
  {
    var places := [Place(p0, k0), Place(p1, k1), Place(p2, k2)];
    ThreePlaces(text, k0, k1, k2, v0, v1, v2, a, b, p0, p1, p2);
    ThreeValues(text, k0, k1, k2, v0, v1, v2, a, b, c, p1, p2, places);
    ThreeEntries(text, places, [v0, v1, v2]);
    UnwrapTight('{', text, '}');
    DictFrom("{" + text + "}", text, [k0, k1, k2], places);
  }

  lemma DictFrom(input: string, text: string, keys: seq<string>, places: seq<Place>)
    requires keys != [] && Unwrapped(input, '{', '}') == Some(text) && Places(text, keys) == Ok(places)
    requires Ascending(places) && SortPlaces(places) == places
    requires forall k :: 0 <= k < |places| ==> places[k].at <= |text|
    ensures DictOf(input, keys) == Ok(Entries(text, places, |places|))
  {
  }

  /** Blanks after the dictionary change nothing. */
  lemma DictIgnoresPadding(input: string, padding: string, keys: seq<string>)
    requires AllBlank(padding) && Tight(input)
    ensures DictOf(input + padding, keys) == DictOf(input, keys)
  {
    TrimBlanks("", input, padding);
    TrimBlanks("", input, "");
    assert "" + input + padding == input + padding && "" + input + "" == input;
  }

  function HeaderText(h: Header, padding: string): string {
    HeaderDict(h) + padding + "\n"
  }

  /** A written header is read back, for a shape of any length, exactly when its type is one of the library's. */
  lemma HeaderRoundTrip(h: Header, padding: string)
    requires Representable(h) && AllBlank(padding)
    ensures HeaderOf(HeaderText(h, padding)) == Ok(h) <==> ValidType(h.dtype)
  {
    if ValidType(h.dtype) {
      PaddedDictIsRead(h, padding, HeaderText(h, padding));
      DictRoundTrip(h);
      ValuesRoundTrip(h);
    }
  }

  lemma PaddedDictIsRead(h: Header, padding: string, text: string)
    requires Representable(h) && AllBlank(padding) && text == HeaderText(h, padding)
    ensures |text| > 0 && DictOf(text[..|text| - 1], KEYS) == DictOf(HeaderDict(h), KEYS)
  {
    assert text[..|text| - 1] == HeaderDict(h) + padding;
    DictIgnoresPadding(HeaderDict(h), padding, KEYS);
  }

  lemma ValuesRoundTrip(h: Header)
    requires Representable(h) && ValidType(h.dtype)
    ensures HeaderFrom(map["descr" := Quoted(TypeString(h.dtype)), "fortran_order" := WriteBoolean(h.fortran),
                           "shape" := WriteTuple(h.shape)]) == Ok(h)
  {
    var s := Quoted(TypeString(h.dtype));
    assert s[1..|s| - 1] == TypeString(h.dtype);
    TypeRoundTrip(h.dtype);
    TupleRoundTrip(h.shape);
  }
}
