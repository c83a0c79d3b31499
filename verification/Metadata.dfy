/** Snapshot file names: the printer `Filename` and the parser in `NewMetadata`. */
module Metadata {
  import opened Wrappers
  import opened Strings

  const MIN_INT64: int := -0x8000_0000_0000_0000
  const MAX_INT64: int := 0x7fff_ffff_ffff_ffff
  const SUFFIX := "etcd.backup"

  predicate IsInt64(v: int) { MIN_INT64 <= v <= MAX_INT64 }

  // ---- hexadecimal -------------------------------------------------------

  function Digit(d: nat): (c: char)
    requires d < 16
    ensures DigitValue(c) == Some(d)
  {
    if d < 10 then '0' + d as char else 'a' + (d - 10) as char
  }

  /** Digits are read in either case, as strconv does. */
  function DigitValue(c: char): (v: Option<nat>)
    ensures v.Some? ==> v.value < 16 && c != '_' && c != '+' && c != '-'
  {
    if '0' <= c <= '9' then Some((c - '0') as nat)
    else if 'a' <= c <= 'f' then Some((c - 'a') as nat + 10)
    else if 'A' <= c <= 'F' then Some((c - 'A') as nat + 10)
    else None
  }

  /** `%x` of a non-negative number: no leading zeros. */
  function Hex(v: nat): (s: string)
    ensures s != ""
  {
    if v < 16 then [Digit(v)] else Hex(v / 16) + [Digit(v % 16)]
  }

  function Zeros(n: nat): (s: string)
    ensures |s| == n
  {
    if n == 0 then "" else Zeros(n - 1) + "0"
  }

  function PadLeft(s: string, width: nat): string {
    if |s| < width then Zeros(width - |s|) + s else s
  }

  /** `%016x`: the width counts the sign, the zeros go after it. */
  function FormatRevision(r: int): string {
    if r < 0 then "-" + PadLeft(Hex(-r), 15) else PadLeft(Hex(r), 16)
  }

  /** The value of a string of hexadecimal digits, None if it has any other character. */
  function DigitsValue(s: string): Option<nat> {
    if s == "" then Some(0)
    else
      var init, last := DigitsValue(s[..|s| - 1]), DigitValue(s[|s| - 1]);
      if init.Some? && last.Some? then Some(16 * init.value + last.value) else None
  }

  /** strconv.ParseInt(s, 16, 64); None stands for its syntax and range errors. */
  function ParseInt(s: string): (v: Option<int>)
    ensures v.Some? ==> IsInt64(v.value)
  {
    if s == "" then None
    else
      var negative := s[0] == '-';
      var digits := if negative || s[0] == '+' then s[1..] else s;
      if digits == "" then None
      else
        match DigitsValue(digits)
        case None => None
        case Some(v) =>
          if negative then (if v > -MIN_INT64 then None else Some(-(v as int)))
          else if v > MAX_INT64 then None else Some(v)
  }

  // ---- names -------------------------------------------------------------

  datatype Metadata = Metadata(name: string, revision: int, size: int)

  /** Parsed; Malformed for ParseInt's error; Panic for an index out of range (a name without '_'). */
  datatype Parsed = Parsed(metadata: Metadata) | Malformed | Panic

  /** strings.SplitN(s, "_", 3)[1], which exists only if s has a '_'. */
  function SecondField(s: string): Option<string> {
    var i := IndexOf(s, '_');
    if i == |s| then None
    else
      var rest := s[i + 1..];
      Some(rest[..IndexOf(rest, '_')])
  }

  function NewMetadata(name: string, revision: int, size: int): Parsed {
    if revision >= 0 then Parsed(Metadata(name, revision, size))
    else
      match SecondField(name)
      case None => Panic
      case Some(field) =>
        match ParseInt(field)
        case None => Malformed
        case Some(v) => Parsed(Metadata(name, v, size))
  }

  function Filename(m: Metadata): string {
    m.name + "_" + FormatRevision(m.revision) + "_" + SUFFIX
  }

  /** A revision that is given is kept, whatever the name is; only a negative one is replaced by the name's. */
  lemma {:induction false} GivenRevisionKept(name: string, revision: int, other: int, size: int)
    ensures revision >= 0 ==> NewMetadata(name, revision, size) == Parsed(Metadata(name, revision, size))
    ensures revision < 0 && other < 0 ==> NewMetadata(name, revision, size) == NewMetadata(name, other, size)
  {
  }

  // ---- what the digits mean ------------------------------------------------

  lemma {:induction false} HexValue(v: nat)
    ensures DigitsValue(Hex(v)) == Some(v)
  {
    if v < 16 {
      assert Hex(v)[..0] == "";
    } else {
      HexValue(v / 16);
      assert Hex(v)[..|Hex(v)| - 1] == Hex(v / 16);
    }
  }

  lemma {:induction false} DigitsValueZeros(n: nat, s: string)
    ensures DigitsValue(Zeros(n) + s) == DigitsValue(s)
    decreases |s|, n
  {
    var z := Zeros(n) + s;
    if s != "" {
      assert z[..|z| - 1] == Zeros(n) + s[..|s| - 1];
      DigitsValueZeros(n, s[..|s| - 1]);
    } else if n > 0 {
      assert z == Zeros(n);
      assert z[..|z| - 1] == Zeros(n - 1) == Zeros(n - 1) + "";
      DigitsValueZeros(n - 1, "");
    }
  }

  lemma {:induction false} PaddedValue(v: nat, width: nat)
    ensures DigitsValue(PadLeft(Hex(v), width)) == Some(v)
  {
    HexValue(v);
    if |Hex(v)| < width { DigitsValueZeros(width - |Hex(v)|, Hex(v)); }
  }

  /** A string with a value consists of digits only, so it has no separator and no sign. */
  lemma {:induction false} DigitsOnly(s: string)
    requires DigitsValue(s).Some?
    ensures forall k :: 0 <= k < |s| ==> DigitValue(s[k]).Some?
  {
    if s != "" { DigitsOnly(s[..|s| - 1]); }
  }

  function Pow16(n: nat): nat { if n == 0 then 1 else 16 * Pow16(n - 1) }

  lemma {:induction false} HexLength(v: nat, n: nat)
    requires 0 < n && v < Pow16(n)
    ensures |Hex(v)| <= n
  {
    if v >= 16 {
      assert n > 1;
      HexLength(v / 16, n - 1);
    }
  }

  lemma {:induction false} DigitInEitherCase(c: char, d: nat)
    requires d < 16
    ensures DigitValue(c) == Some(d) <==> c == "0123456789abcdef"[d] || c == "0123456789ABCDEF"[d]
  {
  }

  /** What is accepted: digits with or without a sign, if the number fits into 64 bits. */
  lemma {:induction false} ParsedExactly(s: string, v: int)
    ensures ParseInt(s) == Some(v) <==>
              && IsInt64(v)
              && (if v < 0 then s != "" && s[0] == '-' && Spelled(s[1..], -v)
                  else Spelled(s, v) || (s != "" && (s[0] == '+' || (s[0] == '-' && v == 0)) && Spelled(s[1..], v)))
  {
    if s != "" && DigitsValue(s).Some? { DigitsOnly(s); }
  }

  /** At least one digit, and nothing but digits, with this value. */
  predicate Spelled(digits: string, v: int) { v >= 0 && digits != "" && DigitsValue(digits) == Some(v) }

  /** Every revision from 0 to 2^63-1 is written with exactly 16 digits. */
  lemma {:induction false} SixteenDigits(r: int)
    requires 0 <= r <= MAX_INT64
    ensures |FormatRevision(r)| == 16
    ensures DigitsValue(FormatRevision(r)) == Some(r)
  {
    assert Pow16(4) == 0x1_0000;
    assert Pow16(8) == 0x1_0000_0000;
    assert Pow16(12) == 0x1_0000_0000_0000;
    assert Pow16(16) == 0x1_0000_0000_0000_0000;
    HexLength(r, 16);
    PaddedValue(r, 16);
  }

  // ---- round trip ------------------------------------------------------------

  /** What is printed for a revision is parsed back, for every int64. */
  lemma {:induction false} FormatParse(r: int)
    requires IsInt64(r)
    ensures ParseInt(FormatRevision(r)) == Some(r)
    ensures '_' !in FormatRevision(r)
  {
    var s := FormatRevision(r);
    var width := if r < 0 then 15 else 16;
    var digits := PadLeft(Hex(if r < 0 then -r else r), width);
    PaddedValue(if r < 0 then -r else r, width);
    DigitsOnly(digits);
    assert digits != "" && DigitValue(digits[0]).Some?;
    assert r < 0 ==> s[1..] == digits;
  }

  lemma {:induction false} FieldBetween(a: string, f: string, t: string)
    requires '_' !in a && '_' !in f
    ensures SecondField(a + ['_'] + (f + ['_'] + t)) == Some(f)
  {
    var tail := f + ['_'] + t;
    var whole := a + ['_'] + tail;
    IndexOfConcat(a, tail, '_');
    assert whole[|a| + 1..] == tail;
    IndexOfConcat(f, t, '_');
    assert tail[..|f|] == f;
  }

  /** Once `a` holds a separator, what follows `a` and one more separator is never looked at. */
  lemma {:induction false} FieldInside(a: string, t: string)
    requires '_' in a
    ensures SecondField(a + ['_'] + t) == Some(SecondField(a + ['_']).value)
    ensures SecondField(a + ['_']).Some?
  {
    var i := IndexOf(a, '_');
    var rest := a[i + 1..];
    FieldAfterFirst(a, t);
    FieldAfterFirst(a, "");
    assert a + ['_'] + "" == a + ['_'];
  }

  lemma {:induction false} FieldAfterFirst(a: string, t: string)
    requires '_' in a
    ensures var rest := a[IndexOf(a, '_') + 1..];
            SecondField(a + ['_'] + t) == Some(rest[..IndexOf(rest, '_')])
  {
    var i := IndexOf(a, '_');
    var rest := a[i + 1..];
    IndexOfConcat(a, t, '_');
    DropInside(a, t, i + 1);
    SecondFieldIs(a + ['_'] + t, i, rest + ['_'] + t);
    IndexOfConcat(rest, t, '_');
    TakeInside(rest, t, IndexOf(rest, '_'));
  }

  lemma {:induction false} SecondFieldIs(s: string, i: nat, rest: string)
    requires i == IndexOf(s, '_') < |s| && s[i + 1..] == rest
    ensures SecondField(s) == Some(rest[..IndexOf(rest, '_')])
  {
  }

  lemma {:induction false} DropInside(a: string, t: string, i: nat)
    requires i <= |a|
    ensures (a + ['_'] + t)[i..] == a[i..] + ['_'] + t
  {
  }

  lemma {:induction false} TakeInside(a: string, t: string, i: nat)
    requires i <= |a|
    ensures (a + ['_'] + t)[..i] == a[..i]
  {
  }

  /** The second field of a file name: the revision, or a piece of the name when the name has a '_'. */
  lemma {:induction false} FilenameField(m: Metadata)
    requires IsInt64(m.revision)
    ensures '_' !in m.name ==> SecondField(Filename(m)) == Some(FormatRevision(m.revision))
    ensures '_' in m.name ==> SecondField(m.name + "_").Some? && SecondField(Filename(m)) == SecondField(m.name + "_")
  {
    var f := FormatRevision(m.revision);
    FormatParse(m.revision);
    var suffix := SUFFIX;
    assert Filename(m) == m.name + ['_'] + (f + ['_'] + suffix);
    if '_' !in m.name {
      FieldBetween(m.name, f, suffix);
    } else {
      FieldInside(m.name, f + ['_'] + suffix);
    }
  }

  /** Saving under a name and reading the name back recovers the revision: always when the instance
      name has no '_', and otherwise only if a piece of the name happens to spell that revision. */
  lemma {:induction false} RoundTrip(m: Metadata, size: int)
    requires IsInt64(m.revision)
    ensures '_' in m.name ==> SecondField(m.name + "_").Some?
    ensures NewMetadata(Filename(m), -1, size) == Parsed(Metadata(Filename(m), m.revision, size))
            <==> '_' !in m.name || ParseInt(SecondField(m.name + "_").value) == Some(m.revision)
  {
    FilenameField(m);
    FormatParse(m.revision);
  }

  /** An instance name is safe for every revision if and only if it has no '_'. */
  lemma {:induction false} RoundTripForEveryRevision(name: string)
    ensures (forall r: int | IsInt64(r) ::
               NewMetadata(Filename(Metadata(name, r, 0)), -1, 0) == Parsed(Metadata(Filename(Metadata(name, r, 0)), r, 0)))
            <==> '_' !in name
  {
    forall r: int | IsInt64(r) && '_' !in name
      ensures NewMetadata(Filename(Metadata(name, r, 0)), -1, 0) == Parsed(Metadata(Filename(Metadata(name, r, 0)), r, 0))
    {
      RoundTrip(Metadata(name, r, 0), 0);
    }
    if '_' in name {
      RoundTrip(Metadata(name, 0, 0), 0);
      RoundTrip(Metadata(name, 1, 0), 0);
    }
  }

  /** With a '_' in the instance name every revision is read as the same piece of the name. */
  lemma {:induction false} UnderscoreHidesRevision(first: string, piece: string, r: int)
    requires IsInt64(r) && '_' !in first && '_' !in piece
    ensures SecondField(Filename(Metadata(first + ['_'] + piece, r, 0))) == Some(piece)
  {
    var name := first + ['_'] + piece;
    FilenameTail(name, r);
    HiddenPiece(first, piece, FormatRevision(r) + ("_" + SUFFIX));
  }

  lemma {:induction false} HiddenPiece(first: string, piece: string, tail: string)
    requires '_' !in first && '_' !in piece
    ensures SecondField((first + ['_'] + piece) + ['_'] + tail) == Some(piece)
  {
    Reassociate(first, piece, tail);
    FieldBetween(first, piece, tail);
  }

  lemma {:induction false} Reassociate(a: string, b: string, c: string)
    ensures (a + ['_'] + b) + ['_'] + c == a + ['_'] + (b + ['_'] + c)
  {
  }

  lemma {:induction false} FilenameTail(name: string, r: int)
    ensures Filename(Metadata(name, r, 0)) == name + ['_'] + (FormatRevision(r) + ("_" + SUFFIX))
  {
  }

  /** A container called eco_b loses every revision: all of its snapshots are read as 0xb. */
  lemma {:induction false} UnderscoreBreaksRoundTrip(r: int, name: string)
    requires IsInt64(r) && name == "eco" + ['_'] + "b"
    ensures NewMetadata(Filename(Metadata(name, r, 0)), -1, 0) == Parsed(Metadata(Filename(Metadata(name, r, 0)), 11, 0))
  {
    UnderscoreHidesRevision("eco", "b", r);
    BIsEleven();
  }

  lemma {:induction false} BIsEleven()
    ensures ParseInt("b") == Some(11)
  {
    assert "b"[..0] == "";
    assert DigitValue("b"[0]) == Some(11);
  }

  // ---- collisions and order --------------------------------------------------

  /** Two snapshots share a file name only if they have the same instance and revision. */
  lemma {:induction false} FilenameInjective(m: Metadata, n: Metadata)
    requires 0 <= m.revision <= MAX_INT64 && 0 <= n.revision <= MAX_INT64
    requires Filename(m) == Filename(n)
    ensures m.name == n.name && m.revision == n.revision
  {
    SixteenDigits(m.revision);
    SixteenDigits(n.revision);
    var s := "_" + SUFFIX;
    var f, g := FormatRevision(m.revision), FormatRevision(n.revision);
    FilenameTail(m.name, m.revision);
    FilenameTail(n.name, n.revision);
    assert Filename(m) == Filename(Metadata(m.name, m.revision, 0)) && Filename(n) == Filename(Metadata(n.name, n.revision, 0));
    SameSplit(m.name + ['_'], f + s, n.name + ['_'], g + s);
    SameSplit(m.name, ['_'], n.name, ['_']);
    SameSplit(f, s, g, s);
  }

  /** Two strings cut at the same distance from their ends are equal piece by piece. */
  lemma {:induction false} SameSplit(a: string, s: string, b: string, t: string)
    requires a + s == b + t && |s| == |t|
    ensures a == b && s == t
  {
    assert |a + s| == |a| + |s| && |b + t| == |b| + |t|;
    assert (a + s)[..|a|] == a && (b + t)[..|b|] == b;
    assert (a + s)[|a|..] == s && (b + t)[|b|..] == t;
  }

  predicate LowerHex(s: string) {
    forall k :: 0 <= k < |s| ==> '0' <= s[k] <= '9' || 'a' <= s[k] <= 'f'
  }

  lemma {:induction false} HexIsLower(v: nat)
    ensures LowerHex(Hex(v))
  {
    if v >= 16 { HexIsLower(v / 16); }
  }

  lemma {:induction false} ZerosAreLower(n: nat)
    ensures LowerHex(Zeros(n))
  {
    if n > 0 { ZerosAreLower(n - 1); }
  }

  /** For digit strings of one length the byte order is the numeric order. */
  lemma {:induction false} SameLengthOrder(a: string, b: string)
    requires |a| == |b| && LowerHex(a) && LowerHex(b)
    ensures DigitsValue(a).Some? && DigitsValue(b).Some?
    ensures Less(a, b) <==> DigitsValue(a).value < DigitsValue(b).value
    ensures a == b <==> DigitsValue(a) == DigitsValue(b)
  {
    if a != "" {
      var n := |a| - 1;
      SameLengthOrder(a[..n], b[..n]);
      AppendedOrder(a[..n], b[..n], a[n], b[n]);
      assert a == a[..n] + [a[n]] && b == b[..n] + [b[n]];
    }
  }

  lemma {:induction false} AppendedOrder(a: string, b: string, x: char, y: char)
    requires |a| == |b| && LowerHex([x]) && LowerHex([y])
    requires DigitsValue(a).Some? && DigitsValue(b).Some?
    requires Less(a, b) <==> DigitsValue(a).value < DigitsValue(b).value
    requires a == b <==> DigitsValue(a) == DigitsValue(b)
    ensures DigitsValue(a + [x]).Some? && DigitsValue(b + [y]).Some?
    ensures Less(a + [x], b + [y]) <==> DigitsValue(a + [x]).value < DigitsValue(b + [y]).value
    ensures a + [x] == b + [y] <==> DigitsValue(a + [x]) == DigitsValue(b + [y])
  {
    LessSameLength(a, b, [x], [y]);
    DigitOrder(x, y);
    AppendedValue(a, x);
    AppendedValue(b, y);
    assert a + [x] == b + [y] <==> a == b && x == y by {
      assert (a + [x])[..|a|] == a && (b + [y])[..|b|] == b;
      assert (a + [x])[|a|] == x && (b + [y])[|b|] == y;
    }
  }

  lemma {:induction false} AppendedValue(a: string, x: char)
    requires DigitsValue(a).Some? && DigitValue(x).Some?
    ensures DigitsValue(a + [x]) == Some(16 * DigitsValue(a).value + DigitValue(x).value)
  {
    assert (a + [x])[..|a + [x]| - 1] == a;
  }

  lemma {:induction false} DigitOrder(x: char, y: char)
    requires LowerHex([x]) && LowerHex([y])
    ensures DigitValue(x).Some? && DigitValue(y).Some?
    ensures Less([x], [y]) <==> DigitValue(x).value < DigitValue(y).value
    ensures x == y <==> DigitValue(x) == DigitValue(y)
  {
    assert [x][0] == x && [y][0] == y;
    assert [x][1..] == "" && [y][1..] == "";
  }

  lemma {:induction false} FieldOrder(p: string, a: string, b: string, t: string)
    requires |a| == |b|
    ensures Less(p + (a + t), p + (b + t)) <==> Less(a, b)
  {
    LessCommonPrefix(p, a + t, b + t);
    LessSameLength(a, b, t, t);
    LessIrreflexive(t);
  }

  /** For one instance, sorting file names sorts revisions. */
  lemma {:induction false} FilenameOrder(name: string, r: int, q: int)
    requires 0 <= r <= MAX_INT64 && 0 <= q <= MAX_INT64
    ensures Less(Filename(Metadata(name, r, 0)), Filename(Metadata(name, q, 0))) <==> r < q
  {
    PrintedLower(r);
    PrintedLower(q);
    SameLengthOrder(FormatRevision(r), FormatRevision(q));
    FieldOrder(name + "_", FormatRevision(r), FormatRevision(q), "_" + SUFFIX);
    FilenameTail(name, r);
    FilenameTail(name, q);
  }

  lemma {:induction false} PrintedLower(r: int)
    requires 0 <= r <= MAX_INT64
    ensures |FormatRevision(r)| == 16 && LowerHex(FormatRevision(r))
    ensures DigitsValue(FormatRevision(r)) == Some(r)
  {
    SixteenDigits(r);
    HexIsLower(r);
    if |Hex(r)| < 16 { ZerosAreLower(16 - |Hex(r)|); }
  }
}
