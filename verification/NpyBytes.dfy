/**
 The bytes of an `.npy` preamble one by one, and the words of its dictionary, as the format lays
 them down.
 */
module NpyBytes {
  import opened Options
  import opened Decimals
  import opened PyLiteral
  import opened NpyHeader
  import opened NpyFile

  // ------------------------------------------------------------------------ bytes

  /** Byte `k` of a number, counted from the lowest. */
  function ByteOf(n: nat, k: nat): nat {
    if k == 0 then n % 0x100 else ByteOf(n / 0x100, k - 1)
  }

  /** The lowest bytes of `n`, the lowest of all first. */
  predicate LowByteFirst(s: string, n: nat) {
    forall k :: 0 <= k < |s| ==> s[k] as int == ByteOf(n, k)
  }

  lemma TwoBytes(n: nat)
    ensures LowByteFirst(LittleEndian2(n), n)
  {
    assert ByteOf(n, 1) == ByteOf(n / 0x100, 0);
  }

  lemma TwoBytesOn(n: nat, k: nat)
    ensures ByteOf(n, k + 2) == ByteOf(n / 0x1_0000, k)
  {
    assert ByteOf(n, k + 2) == ByteOf(n / 0x100, k + 1) == ByteOf(n / 0x100 / 0x100, k);
    assert n / 0x100 / 0x100 == n / 0x1_0000;
  }

  lemma FourBytes(n: nat)
    ensures LowByteFirst(LittleEndian4(n), n)
  {
    TwoBytes(n);
    TwoBytes(n / 0x1_0000);
    var low, high, s := LittleEndian2(n), LittleEndian2(n / 0x1_0000), LittleEndian4(n);
    forall k | 0 <= k < 4
      ensures s[k] as int == ByteOf(n, k)
    {
      if k < 2 {
        assert s[k] == low[k];
      } else {
        assert s[k] == high[k - 2];
        TwoBytesOn(n, k - 2);
      }
    }
  }

  /** Magic bytes, version, the length of what follows low byte first, the dictionary, blanks, a line break. */
  predicate IsPreamble(s: string, dict: string) {
    var start := if |dict| + 11 >= 65025 then 12 else 10;
    && start + |dict| + 2 <= |s| <= start + |dict| + 17 && |s| % 16 == 0
    && s[0] as int == 0x93 && s[1..6] == "NUMPY"
    && s[6] as int == (if start == 12 then 2 else 1) && s[7] as int == 0
    && LowByteFirst(s[8..start], |s| - start)
    && s[start..start + |dict|] == dict
    && (forall i :: start + |dict| <= i < |s| - 1 ==> s[i] == ' ') && s[|s| - 1] == '\n'
  }

  lemma PreambleBytes(dict: string)
    ensures IsPreamble(Preamble(dict), dict)
  {
    var n := |dict|;
    PreambleIsAligned(dict);
    FieldBytes(n);
    MagicBytes();
    Parts(MAGIC, Version(n), LengthField(n), dict, Padding(n));
  }

  lemma FieldBytes(n: nat)
    ensures |LengthField(n)| == (if n + 11 >= 65025 then 4 else 2) && LowByteFirst(LengthField(n), TextLength(n))
  {
    var length := TextLength(n);
    LengthFits(n);
    if Long(n) {
      CutKeepsBytes(length);
      FourBytes(length);
    } else {
      TwoBytes(length);
    }
  }

  /** Cutting a number to 32 bits keeps its four lowest bytes. */
  lemma CutKeepsBytes(n: nat)
    ensures LittleEndian4(n % 0x1_0000_0000) == LittleEndian4(n)
  {
    var q, r := n / 0x1_0000_0000, n % 0x1_0000_0000;
    assert n == q * 0x1_0000_0000 + r;
    assert n / 0x1_0000 == q * 0x1_0000 + r / 0x1_0000;
    SameLowBytes(r, n, q * 0x1_0000);
    SameLowBytes(r / 0x1_0000, n / 0x1_0000, q);
  }

  lemma SameLowBytes(r: nat, n: nat, q: nat)
    requires n == q * 0x1_0000 + r
    ensures LittleEndian2(n) == LittleEndian2(r)
  {
    SameLowByte(r, n, q * 0x100);
    SameLowByte(r / 0x100, n / 0x100, q);
  }

  lemma SameLowByte(r: nat, n: nat, q: nat)
    requires n == q * 0x100 + r
    ensures ByteChar(n) == ByteChar(r) && n / 0x100 == q + r / 0x100
  {
  }

  lemma MagicBytes()
    ensures |MAGIC| == 6 && MAGIC[0] as int == 0x93 && MAGIC[1..] == "NUMPY"
  {
  }

  lemma Parts(magic: string, version: string, field: string, dict: string, padding: string)
    requires |magic| == 6 && |version| == 2
    ensures var s := magic + (version + (field + (dict + padding + "\n")));
      var start := 8 + |field|;
      && |s| == start + |dict| + |padding| + 1
      && s[..6] == magic && s[1..6] == magic[1..] && s[6] == version[0] && s[7] == version[1]
      && s[8..start] == field && s[start..start + |dict|] == dict
      && (forall i :: start + |dict| <= i < |s| - 1 ==> s[i] == padding[i - start - |dict|]) && s[|s| - 1] == '\n'
  {
    var s := magic + (version + (field + (dict + padding + "\n")));
    var start := 8 + |field|;
    assert s[start..] == dict + padding + "\n";
    assert s[8..] == field + (dict + padding + "\n");
  }

  /** The text after version and length is as long as these bytes say, low byte first. */
  lemma LengthIsRead(version: char, field: string, rest: string, n: nat)
    requires (version == '\U{1}' && |field| == 2) || (version == '\U{2}' && |field| == 4)
    requires LowByteFirst(field, n) && n < (if |field| == 2 then 0x1_0000 else 0x1_0000_0000)
    requires n <= |rest|
    ensures ReadFrom(['\U{93}', 'N', 'U', 'M', 'P', 'Y', version, '\0'] + (field + rest)) == HeaderRead(Ok(rest[..n]), rest[n..])
  {
    FieldSays(field, n);
    ReadsPreamble([version, '\0'], field, rest, "", n);
    NothingAfter(rest[n..]);
    NothingAfter(MAGIC + ([version, '\0'] + (field + rest)));
    assert MAGIC + ([version, '\0'] + (field + rest)) == ['\U{93}', 'N', 'U', 'M', 'P', 'Y', version, '\0'] + (field + rest);
  }

  lemma NothingAfter(s: string)
    ensures s + "" == s
  {
  }

  lemma FieldSays(field: string, n: nat)
    requires |field| == 2 || |field| == 4
    requires LowByteFirst(field, n) && n < (if |field| == 2 then 0x1_0000 else 0x1_0000_0000)
    ensures n == if |field| == 2 then FromLittle2(field) else FromLittle4(field)
  {
    if |field| == 2 {
      TwoBytes(n);
      SameBytes(field, LittleEndian2(n), n);
      Two(n);
    } else {
      FourBytes(n);
      SameBytes(field, LittleEndian4(n), n);
      Four(n);
    }
  }

  lemma SameBytes(s: string, t: string, n: nat)
    requires |s| == |t| && LowByteFirst(s, n) && LowByteFirst(t, n)
    ensures s == t
  {
    forall k | 0 <= k < |s|
      ensures s[k] == t[k]
    {
      assert s[k] as int == ByteOf(n, k) == t[k] as int;
    }
  }

  // ------------------------------------------------------------------------ words

  lemma DescrWords(value: string)
    ensures EntryText("descr", Quoted(value)) == "'descr': '" + value + "', "
  {
    assert Quoted("descr") + ": " + "'" == "'descr': '";
    Around(Quoted("descr") + ": ", "'", value, "'", ", ");
  }

  lemma Around(a: string, b: string, value: string, c: string, d: string)
    ensures a + (b + value + c) + d == (a + b) + value + (c + d)
  {
  }

  lemma OrderWords(fortran: bool)
    ensures EntryText("fortran_order", WriteBoolean(fortran))
         == if fortran then "'fortran_order': True, " else "'fortran_order': False, "
  {
  }

  lemma ShapeWords(tuple: string)
    ensures EntryText("shape", tuple) == "'shape': " + tuple + ", "
  {
    assert Quoted("shape") + ": " == "'shape': ";
  }

  /** The dictionary's words: which stands for which order, and what a type and a shape look like. */
  lemma DictWords(h: Header)
    ensures HeaderDict(h)
         == "{" + (("'descr': '" + ([h.dtype.byteorder, h.dtype.kind] + Decimal(h.dtype.itemsize)) + "', ")
                   + ((if h.fortran then "'fortran_order': True, " else "'fortran_order': False, ")
                      + ("'shape': " + WriteTuple(h.shape) + ", "))) + "}"
  {
    DescrWords(TypeString(h.dtype));
    OrderWords(h.fortran);
    ShapeWords(WriteTuple(h.shape));
  }

  /** A shape's words: brackets, a comma and a blank between numbers, and a comma alone after a single one. */
  lemma {:induction false} TupleWords(v: seq<nat>)
    ensures WriteTuple([]) == "()"
    ensures |v| == 1 ==> WriteTuple(v) == "(" + Decimal(v[0]) + ",)"
    ensures |v| > 1 ==> WriteTuple(v) == "(" + Joined(v[..|v| - 1]) + ", " + Decimal(v[|v| - 1]) + ")"
  {
    if |v| > 1 {
      var before, last := Joined(v[..|v| - 1]), Decimal(v[|v| - 1]);
      JoinedAtEnd(v);
      Enclosed("(", before, ", ", last, ")");
    }
  }

  lemma Enclosed(open: string, a: string, between: string, b: string, close: string)
    ensures open + (a + between + b) + close == open + a + between + b + close
  {
  }

  lemma Reached(a: string, between: string, b: string, c: string)
    ensures a + between + (b + between + c) == (a + between + b) + between + c
  {
  }

  lemma {:induction false} JoinedAtEnd(v: seq<nat>)
    requires |v| > 1
    ensures Joined(v) == Joined(v[..|v| - 1]) + ", " + Decimal(v[|v| - 1])
  {
    var n := |v| - 1;
    if n == 1 {
      assert v[1..] == [v[1]] && v[..1] == [v[0]];
    } else {
      JoinedAtEnd(v[1..]);
      assert v[1..][..n - 1] == v[..n][1..];
      Reached(Decimal(v[0]), ", ", Joined(v[1..n]), Decimal(v[n]));
    }
  }
}
