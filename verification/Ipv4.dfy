/** Dotted-decimal parsing and byte order. */
module Ipv4 {
  import opened Sequences

  datatype Parsed = Address(value: nat) | InvalidOctet | TooManyOctets | TooFewOctets

  // ----- integers

  predicate IsDigit(c: char) { '0' <= c <= '9' }

  predicate IsRun(s: string) { s != [] && forall k :: 0 <= k < |s| ==> IsDigit(s[k]) }

  function Digit(c: char): int { c as int - '0' as int }

  /** The usual value of a run of digits. */
  function Decimal(s: string): int
  {
    if s == [] then 0 else Decimal(s[..|s| - 1]) * 10 + Digit(s[|s| - 1])
  }

  lemma {:induction false} DecimalBound(s: string)
    requires forall k :: 0 <= k < |s| ==> IsDigit(s[k])
    ensures Decimal(s) >= 0
  {
    if s != [] {
      DecimalBound(s[..|s| - 1]);
    }
  }

  lemma WrapStep(a: int, d: int)
    requires 0 <= a && 0 <= d
    ensures ((a % 256) * 10 + d) % 256 == (a * 10 + d) % 256
  {
    var q, r := a / 256, a % 256;
    assert a * 10 + d == (r * 10 + d) + 256 * (q * 10);
    ModPlus(r * 10 + d, q * 10);
  }

  lemma ModPlus(x: int, k: int)
    ensures (x + 256 * k) % 256 == x % 256
  {
  }

  /** parse_integer at eight bits: every step is truncated to the type. */
  method ParseOctet(s: string) returns (ok: bool, value: nat)
    ensures ok <==> IsRun(s)
    ensures ok ==> value == Decimal(s) % 256
  {
    value := 0;
    if s == [] { return false, 0; }
    var i := 0;
    while i < |s|
      invariant i <= |s| && forall k :: 0 <= k < i ==> IsDigit(s[k])
      invariant value == Decimal(s[..i]) % 256
    {
      if s[i] < '0' || s[i] > '9' { return false, value; }
      assert s[..i + 1][..i] == s[..i];
      DecimalBound(s[..i]);
      WrapStep(Decimal(s[..i]), Digit(s[i]));
      value := (value * 10 + Digit(s[i])) % 256;
      i := i + 1;
    }
    assert s[..i] == s;
    ok := true;
  }

  // ----- fields

  /** The first position from i on that holds a dot, or the end. */
  function DotFrom(s: string, i: nat): (r: nat)
    requires i <= |s|
    ensures i <= r <= |s|
    ensures forall k :: i <= k < r ==> s[k] != '.'
    ensures r < |s| ==> s[r] == '.'
    decreases |s| - i
  {
    if i == |s| || s[i] == '.' then i else DotFrom(s, i + 1)
  }

  /** The fields between dots, from position i on. */
  function FieldsFrom(s: string, i: nat): (r: seq<string>)
    requires i <= |s|
    ensures r != []
    decreases |s| - i
  {
    var p := DotFrom(s, i);
    if p == |s| then [s[i..]] else [s[i..p]] + FieldsFrom(s, p + 1)
  }

  function Fields(s: string): seq<string> { FieldsFrom(s, 0) }

  predicate AllRuns(f: seq<string>) { forall k :: 0 <= k < |f| ==> IsRun(f[k]) }

  /** Four dots with four good fields ahead of the last and something behind
      it: the one input on which the source writes a fifth octet. */
  predicate Overruns(f: seq<string>)
  {
    |f| == 5 && AllRuns(f[..4]) && f[4] != []
  }

  function Pack(a: int, b: int, c: int, d: int): int
  {
    a * 0x1000000 + b * 0x10000 + c * 0x100 + d
  }

  lemma AllFour(f: seq<string>)
    requires |f| == 4
    ensures AllRuns(f) <==> AllRuns(f[..3]) && IsRun(f[3])
    ensures AllRuns(f) ==> Decimal(f[0]) >= 0 && Decimal(f[1]) >= 0 && Decimal(f[2]) >= 0 && Decimal(f[3]) >= 0
  {
    assert forall k :: 0 <= k < 3 ==> f[k] == f[..3][k];
    forall k | 0 <= k < 4 && IsRun(f[k]) ensures Decimal(f[k]) >= 0 { DecimalBound(f[k]); }
  }

  /** What the source makes of the fields: those ahead of the last are parsed
      first, at most four of them; then the count of dots is looked at; then the
      last field is parsed; then the count of fields. */
  function Verdict(f: seq<string>): (r: Parsed)
    requires f != []
    ensures r.Address? <==> |f| == 4 && AllRuns(f)
    ensures r.Address? ==>
              r.value == Pack(Decimal(f[0]) % 256, Decimal(f[1]) % 256, Decimal(f[2]) % 256, Decimal(f[3]) % 256)
  {
    if !AllRuns(f[..if |f| > 4 then 4 else |f| - 1]) then InvalidOctet
    else if |f| > 5 then TooManyOctets
    else if !IsRun(f[|f| - 1]) then InvalidOctet
    else if |f| != 4 then TooFewOctets
    else
      AllFour(f);
      Address(Pack(Decimal(f[0]) % 256, Decimal(f[1]) % 256, Decimal(f[2]) % 256, Decimal(f[3]) % 256))
  }

  /** parse_ipv4. */
  method Parse(s: string) returns (r: Parsed)
    requires !Overruns(Fields(s))
    ensures r == Verdict(Fields(s))
  {
    hide FieldsFrom, Decimal, IsRun, Verdict, Pack;
    ghost var fields := Fields(s);
    var octets := new nat[4];
    var saved, numOctets := 0, 0;
    var p := FindDot(s, 0);
    FieldsStart(s);
    while p != |s| && numOctets < 4
      invariant saved <= p <= |s| && p == DotFrom(s, saved)
      invariant numOctets <= 4 && numOctets < |fields|
      invariant fields[numOctets..] == FieldsFrom(s, saved)
      invariant AllRuns(fields[..numOctets])
      invariant forall k :: 0 <= k < numOctets ==> octets[k] == Decimal(fields[k]) % 256
      decreases |s| - p
    {
      NextField(s, saved, fields, numOctets);
      var ok, octet := ParseOctet(s[saved..p]);
      if !ok {
        NotAllRuns(fields, numOctets);
        return InvalidOctet;
      }
      octets[numOctets] := octet;
      assert fields[..numOctets + 1] == fields[..numOctets] + [fields[numOctets]];
      numOctets := numOctets + 1;
      saved := p + 1;
      p := FindDot(s, saved);
    }
    NextField(s, saved, fields, numOctets);
    if p != |s| {
      VerdictOfMany(fields);
      return TooManyOctets;
    }
    var ok, octet := ParseOctet(s[saved..]);
    VerdictAtEnd(fields);
    if !ok { return InvalidOctet; }
    octets[numOctets] := octet;
    numOctets := numOctets + 1;
    if numOctets != 4 { return TooFewOctets; }
    r := Address(Pack(octets[0], octets[1], octets[2], octets[3]));
  }

  lemma FieldsStart(s: string)
    ensures Fields(s) != [] && Fields(s)[0..] == FieldsFrom(s, 0) && AllRuns(Fields(s)[..0])
  {
    var f := Fields(s);
    assert f[0..] == f;
  }

  lemma VerdictOfMany(f: seq<string>)
    requires |f| > 5 && AllRuns(f[..4])
    ensures Verdict(f) == TooManyOctets
  {
  }

  lemma VerdictAtEnd(f: seq<string>)
    requires 1 <= |f| <= 5 && AllRuns(f[..|f| - 1]) && !Overruns(f)
    ensures !IsRun(f[|f| - 1]) ==> Verdict(f) == InvalidOctet
    ensures IsRun(f[|f| - 1]) ==>
              && |f| <= 4
              && Verdict(f) == if |f| != 4 then TooFewOctets else
                   Address(Pack(Decimal(f[0]) % 256, Decimal(f[1]) % 256, Decimal(f[2]) % 256, Decimal(f[3]) % 256))
  {
    if IsRun(f[|f| - 1]) && |f| == 4 { AllFour(f); }
  }

  /** The field in front of the next dot, and the fields behind it. */
  lemma NextField(s: string, i: nat, fields: seq<string>, k: nat)
    requires i <= |s| && k < |fields| && fields[k..] == FieldsFrom(s, i)
    ensures var p := DotFrom(s, i);
            && fields[k] == s[i..p]
            && (p < |s| ==> k + 1 < |fields| && fields[k + 1..] == FieldsFrom(s, p + 1))
            && (p == |s| ==> k + 1 == |fields| && s[i..] == s[i..p])
  {
    FieldsUnfold(s, i);
    hide FieldsFrom;
    assert fields[k..][0] == fields[k] && fields[k..][1..] == fields[k + 1..];
    assert |fields[k..]| == |fields| - k;
  }

  lemma NotAllRuns(f: seq<string>, k: nat)
    requires k < |f| && k < 4 && k < |f| - 1 && !IsRun(f[k])
    ensures Verdict(f) == InvalidOctet
  {
    assert f[..if |f| > 4 then 4 else |f| - 1][k] == f[k];
  }

  /** std::find for a dot. */
  method FindDot(s: string, i: nat) returns (r: nat)
    requires i <= |s|
    ensures r == DotFrom(s, i)
  {
    r := i;
    while r < |s| && s[r] != '.'
      invariant i <= r <= |s| && DotFrom(s, i) == DotFrom(s, r)
    {
      r := r + 1;
    }
  }

  // ----- joining is the inverse of splitting

  predicate NoDot(s: string) { forall k :: 0 <= k < |s| ==> s[k] != '.' }

  function Join(f: seq<string>): string
    requires f != []
  {
    if |f| == 1 then f[0] else f[0] + "." + Join(f[1..])
  }

  lemma {:induction false} JoinOfFields(s: string, i: nat)
    requires i <= |s|
    ensures Join(FieldsFrom(s, i)) == s[i..]
    decreases |s| - i
  {
    var p := DotFrom(s, i);
    if p < |s| {
      JoinOfFields(s, p + 1);
      var first, rest := s[i..p], FieldsFrom(s, p + 1);
      assert FieldsFrom(s, i) == [first] + rest;
      hide FieldsFrom;
      JoinCons(first, rest);
      assert s[i..] == first + "." + s[p + 1..];
    }
  }

  lemma JoinCons(first: string, rest: seq<string>)
    requires rest != []
    ensures Join([first] + rest) == first + "." + Join(rest)
  {
    assert ([first] + rest)[1..] == rest;
  }

  lemma {:induction false} DotShift(a: string, s: string, i: nat)
    requires i <= |s|
    ensures DotFrom(a + s, |a| + i) == |a| + DotFrom(s, i)
    decreases |s| - i
  {
    if i < |s| && s[i] != '.' {
      DotShift(a, s, i + 1);
    }
  }

  lemma {:induction false} FieldsShift(a: string, s: string, i: nat)
    requires i <= |s|
    ensures FieldsFrom(a + s, |a| + i) == FieldsFrom(s, i)
    decreases |s| - i
  {
    hide FieldsFrom, DotFrom;
    DotShift(a, s, i);
    FieldsUnfold(s, i);
    FieldsUnfold(a + s, |a| + i);
    SliceShift(a, s, i, DotFrom(s, i));
    if DotFrom(s, i) < |s| {
      FieldsShift(a, s, DotFrom(s, i) + 1);
    }
  }

  lemma FieldsUnfold(s: string, i: nat)
    requires i <= |s|
    ensures var p := DotFrom(s, i);
            if p == |s| then FieldsFrom(s, i) == [s[i..p]] else FieldsFrom(s, i) == [s[i..p]] + FieldsFrom(s, p + 1)
  {
    assert s[i..|s|] == s[i..];
  }

  lemma SliceShift(a: string, s: string, i: nat, j: nat)
    requires i <= j <= |s|
    ensures (a + s)[|a| + i..|a| + j] == s[i..j]
  {
  }

  lemma {:induction false} DotAt(s: string, i: nat, p: nat)
    requires i <= p <= |s| && (forall k :: i <= k < p ==> s[k] != '.') && (p < |s| ==> s[p] == '.')
    ensures DotFrom(s, i) == p
    decreases p - i
  {
    if i < p {
      DotAt(s, i + 1, p);
    }
  }

  lemma {:induction false} FieldsOfJoin(f: seq<string>)
    requires f != [] && forall k :: 0 <= k < |f| ==> NoDot(f[k])
    ensures Fields(Join(f)) == f
  {
    var s := Join(f);
    if |f| == 1 {
      DotAt(s, 0, |s|);
    } else {
      var a, rest := f[0] + ".", Join(f[1..]);
      assert s == a + rest;
      DotAt(s, 0, |f[0]|);
      FieldsShift(a, rest, 0);
      FieldsOfJoin(f[1..]);
      assert s[0..|f[0]|] == f[0];
    }
  }

  /** A parse succeeds exactly on four non-empty digit runs joined by dots. */
  lemma SucceedsIff(s: string)
    ensures Verdict(Fields(s)).Address?
            <==> exists f: seq<string> :: |f| == 4 && AllRuns(f) && s == Join(f)
  {
    JoinOfFields(s, 0);
    if Verdict(Fields(s)).Address? {
      assert s == Join(Fields(s));
    }
    forall f: seq<string> | |f| == 4 && AllRuns(f) && s == Join(f) ensures Verdict(Fields(s)).Address? {
      RunsHaveNoDot(f);
      FieldsOfJoin(f);
    }
  }

  lemma RunsHaveNoDot(f: seq<string>)
    requires AllRuns(f)
    ensures forall k :: 0 <= k < |f| ==> NoDot(f[k])
  {
  }

  // ----- printing and parsing back

  function Character(d: int): char
    requires 0 <= d < 10
  {
    ('0' as int + d) as char
  }

  function Written(n: nat): string
  {
    if n < 10 then [Character(n)] else Written(n / 10) + [Character(n % 10)]
  }

  lemma {:induction false} WrittenReadsBack(n: nat)
    ensures IsRun(Written(n)) && Decimal(Written(n)) == n
  {
    var w := Written(n);
    if n < 10 {
      assert w[..0] == "";
      assert Decimal(w) == Decimal("") * 10 + n;
    } else {
      WrittenReadsBack(n / 10);
      assert w[..|w| - 1] == Written(n / 10);
    }
  }

  function Octet(v: nat, k: nat): nat
    requires k < 4
  {
    [v / 0x1000000, v / 0x10000 % 256, v / 0x100 % 256, v % 256][k]
  }

  function Print(v: nat): string
  {
    Join([Written(Octet(v, 0)), Written(Octet(v, 1)), Written(Octet(v, 2)), Written(Octet(v, 3))])
  }

  /** Printing then parsing any 32-bit address returns it. */
  lemma PrintParse(v: nat)
    requires v < 0x100000000
    ensures Verdict(Fields(Print(v))) == Address(v)
  {
    hide Join, Fields, Verdict, Written, Decimal, Octet, Pack;
    PackOctets(v);
    WrittenReadsBack(Octet(v, 0));
    WrittenReadsBack(Octet(v, 1));
    WrittenReadsBack(Octet(v, 2));
    WrittenReadsBack(Octet(v, 3));
    FourRuns(Written(Octet(v, 0)), Written(Octet(v, 1)), Written(Octet(v, 2)), Written(Octet(v, 3)));
  }

  /** Four digit runs joined by dots parse to their values modulo 256. */
  lemma FourRuns(a: string, b: string, c: string, d: string)
    requires IsRun(a) && IsRun(b) && IsRun(c) && IsRun(d)
    ensures 0 <= Pack(Decimal(a) % 256, Decimal(b) % 256, Decimal(c) % 256, Decimal(d) % 256)
    ensures Verdict(Fields(Join([a, b, c, d])))
         == Address(Pack(Decimal(a) % 256, Decimal(b) % 256, Decimal(c) % 256, Decimal(d) % 256))
  {
    var f := [a, b, c, d];
    RunsHaveNoDot(f);
    FieldsOfJoin(f);
    hide Join, Fields, Decimal;
  }

  lemma PackOctets(v: nat)
    requires v < 0x100000000
    ensures forall k :: 0 <= k < 4 ==> Octet(v, k) < 256
    ensures Pack(Octet(v, 0), Octet(v, 1), Octet(v, 2), Octet(v, 3)) == v
  {
    var q1 := v / 0x100;
    var q2 := q1 / 0x100;
    var q3 := q2 / 0x100;
    assert v == 0x10000 * q2 + (0x100 * (q1 % 0x100) + v % 0x100);
    assert v / 0x10000 == q2;
    assert v == 0x1000000 * q3 + (0x10000 * (q2 % 0x100) + 0x100 * (q1 % 0x100) + v % 0x100);
    assert v / 0x1000000 == q3;
  }

  /** dec-octet of section 3.2.2 of RFC 3986. */
  predicate DecOctet(s: string)
  {
    || (|s| == 1 && IsDigit(s[0]))
    || (|s| == 2 && '1' <= s[0] <= '9' && IsDigit(s[1]))
    || (|s| == 3 && s[0] == '1' && IsDigit(s[1]) && IsDigit(s[2]))
    || (|s| == 3 && s[0] == '2' && '0' <= s[1] <= '4' && IsDigit(s[2]))
    || (|s| == 3 && s[0] == '2' && s[1] == '5' && '0' <= s[2] <= '5')
  }

  lemma DecimalUpTo3(s: string)
    requires 1 <= |s| <= 3
    ensures |s| == 1 ==> Decimal(s) == Digit(s[0])
    ensures |s| == 2 ==> Decimal(s) == Digit(s[0]) * 10 + Digit(s[1])
    ensures |s| == 3 ==> Decimal(s) == Digit(s[0]) * 100 + Digit(s[1]) * 10 + Digit(s[2])
  {
    assert Decimal("") == 0;
    assert s[..1][..0] == "";
    assert Decimal(s[..1]) == Digit(s[0]);
    if |s| >= 2 {
      assert s[..2][..1] == s[..1];
      assert Decimal(s[..2]) == Digit(s[0]) * 10 + Digit(s[1]);
    }
    assert s == s[..|s|];
    if |s| == 3 { assert s[..3][..2] == s[..2]; }
  }

  /** Every IPv4address of RFC 3986 is parsed, to its usual value, with no
      octet reduced. */
  lemma Rfc3986Address(a: string, b: string, c: string, d: string)
    requires DecOctet(a) && DecOctet(b) && DecOctet(c) && DecOctet(d)
    ensures 0 <= Decimal(a) < 256 && 0 <= Decimal(b) < 256 && 0 <= Decimal(c) < 256 && 0 <= Decimal(d) < 256
    ensures Verdict(Fields(Join([a, b, c, d]))) == Address(Pack(Decimal(a), Decimal(b), Decimal(c), Decimal(d)))
  {
    hide Join, Fields, Verdict, Decimal, DecOctet, IsRun, Pack;
    DecOctetValue(a);
    DecOctetValue(b);
    DecOctetValue(c);
    DecOctetValue(d);
    FourRuns(a, b, c, d);
  }

  lemma DecOctetValue(s: string)
    requires DecOctet(s)
    ensures IsRun(s) && 0 <= Decimal(s) < 256 && Decimal(s) % 256 == Decimal(s)
  {
    DecimalUpTo3(s);
    hide Decimal;
    SmallMod(Decimal(s));
  }

  lemma SmallMod(x: int)
    ensures 0 <= x < 256 ==> x % 256 == x
  {
  }

  /** Four digit runs joined by dots get their usual value if and only if none
      of them exceeds 255; the others are reduced, not refused. */
  lemma UsualValueIff(a: string, b: string, c: string, d: string)
    requires IsRun(a) && IsRun(b) && IsRun(c) && IsRun(d)
    ensures var usual := Pack(Decimal(a), Decimal(b), Decimal(c), Decimal(d));
            && usual >= 0
            && (Verdict(Fields(Join([a, b, c, d]))) == Address(usual)
                <==> Decimal(a) < 256 && Decimal(b) < 256 && Decimal(c) < 256 && Decimal(d) < 256)
  {
    hide Join, Fields, Verdict, Decimal;
    FourRuns(a, b, c, d);
    DecimalBound(a);
    DecimalBound(b);
    DecimalBound(c);
    DecimalBound(d);
    ReducedIff(Decimal(a), Decimal(b), Decimal(c), Decimal(d));
  }

  lemma ReducedIff(a: nat, b: nat, c: nat, d: nat)
    ensures Pack(a % 256, b % 256, c % 256, d % 256) == Pack(a, b, c, d)
            <==> a < 256 && b < 256 && c < 256 && d < 256
  {
  }

  lemma ShortRuns()
    ensures IsRun("256") && IsRun("0") && IsRun("1")
  {
  }

  /** The smallest octet that is reduced. */
  lemma LargeOctetWraps()
    ensures Verdict(Fields(Join(["256", "0", "0", "1"]))) == Address(1)
    ensures Pack(Decimal("256"), Decimal("0"), Decimal("0"), Decimal("1")) == 0x100000001
  {
    hide Join, Fields, Verdict, Decimal;
    DecimalUpTo3("256");
    DecimalUpTo3("0");
    DecimalUpTo3("1");
    hide IsRun, IsDigit, Digit;
    ShortRuns();
    FourRuns("256", "0", "0", "1");
  }

  // ----- byte order

  /** The w bytes of a value, lowest first, as a little-endian machine stores it. */
  function Bytes(v: nat, w: nat): (r: seq<nat>)
    ensures |r| == w && forall k :: 0 <= k < w ==> r[k] < 256
  {
    if w == 0 then [] else [v % 256] + Bytes(v / 256, w - 1)
  }

  function Value(b: seq<nat>): nat
  {
    if b == [] then 0 else b[0] + 256 * Value(b[1..])
  }

  /** reverse_byte_order: the bytes are copied from the far end, and read back. */
  method ReverseByteOrder(v: nat, w: nat) returns (r: nat)
    ensures r == Value(Reversed(Bytes(v, w)))
  {
    var stored := Bytes(v, w);
    var bytes := new nat[w];
    var i := 0;
    while i < w
      invariant i <= w && forall k :: 0 <= k < i ==> bytes[w - 1 - k] == stored[k]
    {
      bytes[w - 1 - i] := stored[i];
      i := i + 1;
    }
    assert bytes[..] == Reversed(stored);
    r := Value(bytes[..]);
  }

  function Power256(w: nat): nat { if w == 0 then 1 else 256 * Power256(w - 1) }

  lemma {:induction false} ValueOfBytes(v: nat, w: nat)
    requires v < Power256(w)
    ensures Value(Bytes(v, w)) == v
  {
    if w > 0 {
      assert v / 256 < Power256(w - 1);
      ValueOfBytes(v / 256, w - 1);
      assert Bytes(v, w)[1..] == Bytes(v / 256, w - 1);
    }
  }

  lemma {:induction false} BytesOfValue(b: seq<nat>)
    requires forall k :: 0 <= k < |b| ==> b[k] < 256
    ensures Value(b) < Power256(|b|) && Bytes(Value(b), |b|) == b
  {
    if b != [] {
      BytesOfValue(b[1..]);
      assert Value(b) % 256 == b[0] && Value(b) / 256 == Value(b[1..]);
      assert b == [b[0]] + b[1..];
    }
  }

  /** At every width, reversing twice is the identity. */
  lemma ReverseTwice(v: nat, w: nat)
    requires v < Power256(w)
    ensures var r := Value(Reversed(Bytes(v, w)));
            r < Power256(w) && Value(Reversed(Bytes(r, w))) == v
  {
    hide Bytes, Value, Reversed, Power256;
    var b := Bytes(v, w);
    BytesOfValue(Reversed(b));
    assert Reversed(Reversed(b)) == b;
    ValueOfBytes(v, w);
  }
}
