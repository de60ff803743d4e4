/** The record parser of the import loop: how one input line is cut into
    columns (`String.split(",")`), how the leading tag is compared
    (`equalsIgnoreCase`) and how a quantity is read (`Integer.parseInt`). */
module Records {

  datatype Option<T> = None | Some(value: T)

  // ---------------------------------------------------------------------
  // Field splitting
  // ---------------------------------------------------------------------

  predicate CommaFree(f: string) {
    forall i :: 0 <= i < |f| ==> f[i] != ','
  }

  /** The pieces between commas, every one of them kept (also the empty ones). */
  function Pieces(s: string): (r: seq<string>)
    ensures |r| >= 1
    ensures forall k :: 0 <= k < |r| ==> CommaFree(r[k])
  {
    if s == [] then [[]]
    else if s[0] == ',' then [[]] + Pieces(s[1..])
    else
      var rest := Pieces(s[1..]);
      [[s[0]] + rest[0]] + rest[1..]
  }

  /** Puts comma-free fields back together, one comma between neighbours. */
  function Join(fs: seq<string>): string
    requires |fs| >= 1
  {
    if |fs| == 1 then fs[0] else fs[0] + "," + Join(fs[1..])
  }

  /** Removes the empty strings at the end of a list of fields. */
  function DropTrailingEmpty(fs: seq<string>): (r: seq<string>)
    ensures |r| <= |fs| && r == fs[..|r|]
    ensures forall k :: |r| <= k < |fs| ==> fs[k] == ""
    ensures r != [] ==> r[|r| - 1] != ""
  {
    if fs == [] then []
    else if fs[|fs| - 1] == "" then DropTrailingEmpty(fs[..|fs| - 1])
    else fs
  }

  /** Java's `line.split(",")` with limit 0: a line without a comma is its
      own single column (even when empty); otherwise the pieces between the
      commas with the trailing empty ones dropped, so a line of commas
      alone gives no column at all. No trimming. */
  function Split(s: string): seq<string> {
    if ',' !in s then [s] else DropTrailingEmpty(Pieces(s))
  }

  lemma {:induction false} PiecesPrepend(f: string, t: string)
    requires CommaFree(f)
    ensures Pieces(f + t) == [f + Pieces(t)[0]] + Pieces(t)[1..]
    decreases |f|
  {
    if f != [] {
      assert (f + t)[0] == f[0] != ',';
      assert (f + t)[1..] == f[1..] + t;
      PiecesPrepend(f[1..], t);
      var rest := Pieces(f[1..] + t);
      assert rest[0] == f[1..] + Pieces(t)[0];
      assert rest[1..] == Pieces(t)[1..];
      assert Pieces(f + t) == [[f[0]] + rest[0]] + rest[1..];
      assert [f[0]] + (f[1..] + Pieces(t)[0]) == f + Pieces(t)[0];
    } else {
      assert f + t == t && f + Pieces(t)[0] == Pieces(t)[0];
    }
  }

  /** Cutting a joined list of comma-free fields gives the fields back. */
  lemma {:induction false} PiecesOfJoin(fs: seq<string>)
    requires |fs| >= 1
    requires forall k :: 0 <= k < |fs| ==> CommaFree(fs[k])
    ensures Pieces(Join(fs)) == fs
    decreases |fs|
  {
    if |fs| == 1 {
      PiecesPrepend(fs[0], []);
      assert fs[0] + [] == fs[0];
    } else {
      var t := "," + Join(fs[1..]);
      assert Join(fs) == fs[0] + t;
      PiecesPrepend(fs[0], t);
      assert t[1..] == Join(fs[1..]);
      PiecesOfJoin(fs[1..]);
      assert Pieces(t) == [[]] + fs[1..];
      assert fs[0] + [] == fs[0];
    }
  }

  /** Joining the pieces of a line gives the line back: cutting loses nothing. */
  lemma {:induction false} JoinOfPieces(s: string)
    ensures Join(Pieces(s)) == s
    decreases |s|
  {
    if s != [] {
      JoinOfPieces(s[1..]);
      var rest := Pieces(s[1..]);
      if s[0] != ',' {
        if |rest| == 1 {
          assert Join(Pieces(s)) == [s[0]] + rest[0];
        } else {
          assert ([s[0]] + rest[0]) + "," + Join(rest[1..]) == [s[0]] + (rest[0] + "," + Join(rest[1..]));
        }
      }
    }
  }

  lemma {:induction false} CommaInJoin(fs: seq<string>)
    requires |fs| >= 2
    ensures ',' in Join(fs)
  {
    assert Join(fs)[|fs[0]|] == ',';
  }

  /** `split` inverts joining when there are at least two fields and the last
      is not empty (or there is a single field): the columns the loop sees
      are the fields the line was written from. */
  lemma SplitOfJoin(fs: seq<string>)
    requires |fs| >= 1
    requires forall k :: 0 <= k < |fs| ==> CommaFree(fs[k])
    requires |fs| >= 2 ==> fs[|fs| - 1] != ""
    ensures Split(Join(fs)) == fs
  {
    if |fs| == 1 {
      assert ',' !in fs[0];
    } else {
      CommaInJoin(fs);
      PiecesOfJoin(fs);
    }
  }

  /** The two- and three-column lines the import reads come apart into
      their columns. */
  lemma SplitTwo(a: string, b: string)
    requires CommaFree(a) && CommaFree(b) && b != ""
    ensures Split(a + "," + b) == [a, b]
  {
    SplitOfJoin([a, b]);
  }

  lemma SplitThree(a: string, b: string, c: string)
    requires CommaFree(a) && CommaFree(b) && CommaFree(c) && c != ""
    ensures Split(a + "," + b + "," + c) == [a, b, c]
  {
    assert [a, b, c][1..] == [b, c] && [b, c][1..] == [c];
    assert Join([b, c]) == b + "," + c;
    assert Join([a, b, c]) == a + "," + (b + "," + c);
    assert a + "," + (b + "," + c) == a + "," + b + "," + c;
    SplitOfJoin([a, b, c]);
  }

  /** What `split` keeps and drops: the columns are a prefix of the pieces
      between commas, every dropped piece is empty, and the last column is
      not empty, unless the line has no comma, when it is its own column. */
  lemma SplitKeepsPieces(s: string)
    ensures ',' !in s ==> Split(s) == [s]
    ensures ',' in s ==> Split(s) == Pieces(s)[..|Split(s)|]
    ensures ',' in s ==> forall k :: |Split(s)| <= k < |Pieces(s)| ==> Pieces(s)[k] == ""
    ensures ',' in s && Split(s) != [] ==> Split(s)[|Split(s)| - 1] != ""
    ensures forall k :: 0 <= k < |Split(s)| ==> CommaFree(Split(s)[k])
  {
  }

  /** A line made of commas only (at least one) has no columns, so even
      `columns[0]` is out of range for it; every other line has one. */
  lemma {:induction false} NoColumnsIffOnlyCommas(s: string)
    ensures Split(s) == [] <==> (s != [] && forall i :: 0 <= i < |s| ==> s[i] == ',')
  {
    JoinOfPieces(s);
    var p := Pieces(s);
    if s != [] && forall i :: 0 <= i < |s| ==> s[i] == ',' {
      assert s[0] == ',';
      AllCommaPieces(s);
      AllEmptyDropped(p);
    }
    if Split(s) == [] {
      assert ',' in s;
      forall i | 0 <= i < |s| ensures s[i] == ',' {
        AllEmptyJoin(p);
      }
    }
  }

  lemma {:induction false} AllCommaPieces(s: string)
    requires forall i :: 0 <= i < |s| ==> s[i] == ','
    ensures forall k :: 0 <= k < |Pieces(s)| ==> Pieces(s)[k] == ""
    decreases |s|
  {
    if s != [] {
      AllCommaPieces(s[1..]);
    }
  }

  lemma {:induction false} AllEmptyDropped(fs: seq<string>)
    requires forall k :: 0 <= k < |fs| ==> fs[k] == ""
    ensures DropTrailingEmpty(fs) == []
    decreases |fs|
  {
    if fs != [] {
      AllEmptyDropped(fs[..|fs| - 1]);
    }
  }

  lemma {:induction false} AllEmptyJoin(fs: seq<string>)
    requires |fs| >= 1
    requires forall k :: 0 <= k < |fs| ==> fs[k] == ""
    ensures forall i :: 0 <= i < |Join(fs)| ==> Join(fs)[i] == ','
    decreases |fs|
  {
    if |fs| > 1 {
      AllEmptyJoin(fs[1..]);
    }
  }

  // ---------------------------------------------------------------------
  // Tag comparison
  // ---------------------------------------------------------------------

  /** ASCII lower-casing of one character. */
  function Lower(c: char): char {
    if 'A' <= c <= 'Z' then (c as int + 32) as char else c
  }

  /** `a.equalsIgnoreCase(b)`, restricted to ASCII case folding. */
  predicate EqualsIgnoreCase(a: string, b: string) {
    |a| == |b| && forall i :: 0 <= i < |a| ==> Lower(a[i]) == Lower(b[i])
  }

  function LowerAll(s: string): (r: string)
    ensures |r| == |s| && forall i :: 0 <= i < |s| ==> r[i] == Lower(s[i])
  {
    if s == [] then [] else [Lower(s[0])] + LowerAll(s[1..])
  }

  /** Comparing ignoring case is comparing the lower-cased texts. */
  lemma EqualsIgnoreCaseIsLowerEquality(a: string, b: string)
    ensures EqualsIgnoreCase(a, b) <==> LowerAll(a) == LowerAll(b)
  {
    if LowerAll(a) == LowerAll(b) {
      forall i | 0 <= i < |a| ensures Lower(a[i]) == Lower(b[i]) {
        assert LowerAll(a)[i] == LowerAll(b)[i];
      }
    }
  }

  // ---------------------------------------------------------------------
  // Integer.parseInt
  // ---------------------------------------------------------------------

  const IntMin: int := -0x8000_0000
  const IntMax: int := 0x7fff_ffff

  predicate IsDigit(c: char) { '0' <= c <= '9' }

  predicate AllDigits(d: string) {
    forall i :: 0 <= i < |d| ==> IsDigit(d[i])
  }

  function DigitsValue(d: string): nat
    requires AllDigits(d)
  {
    if d == [] then 0 else DigitsValue(d[..|d| - 1]) * 10 + (d[|d| - 1] as int - '0' as int)
  }

  /** What follows an optional leading sign, `-` or `+`. */
  function Unsigned(s: string): string {
    if s != [] && (s[0] == '-' || s[0] == '+') then s[1..] else s
  }

  /** `Integer.parseInt(s)` in radix 10: an optional sign (`-` or `+`),
      then at least one decimal digit, and a value that fits in 32 bits;
      anything else is a `NumberFormatException`, here `None`. */
  function ParseInt(s: string): (r: Option<int>)
    ensures r.Some? ==> IntMin <= r.value <= IntMax
    ensures r.Some? ==> s != [] && (IsDigit(s[0]) || s[0] == '-' || s[0] == '+')
    ensures r.Some? ==> Unsigned(s) != [] && AllDigits(Unsigned(s))
  {
    if s == [] then None
    else
      var digits := Unsigned(s);
      if digits == [] || !AllDigits(digits) then None
      else
        var v: int := if s[0] == '-' then -(DigitsValue(digits) as int) else DigitsValue(digits);
        if IntMin <= v <= IntMax then Some(v) else None
  }

  /** Decimal rendering of a natural number, most significant digit first. */
  function ShowNat(n: nat): (r: string)
    ensures r != [] && AllDigits(r)
  {
    if n < 10 then [('0' as int + n) as char]
    else ShowNat(n / 10) + [('0' as int + n % 10) as char]
  }

  /** `Integer.toString(n)`: a minus sign for negative numbers. */
  function ShowInt(n: int): string {
    if n < 0 then "-" + ShowNat(-n) else ShowNat(n)
  }

  lemma {:induction false} DigitsOfShowNat(n: nat)
    ensures DigitsValue(ShowNat(n)) == n
  {
    if n >= 10 {
      DigitsOfShowNat(n / 10);
      var s := ShowNat(n);
      assert s[..|s| - 1] == ShowNat(n / 10);
    }
  }

  /** Every 32-bit integer written in decimal parses back to itself. */
  lemma ParseShowInt(n: int)
    requires IntMin <= n <= IntMax
    ensures ParseInt(ShowInt(n)) == Some(n)
  {
    DigitsOfShowNat(if n < 0 then -n else n);
    if n < 0 {
      assert ShowInt(n)[1..] == ShowNat(-n);
    } else {
      assert IsDigit(ShowNat(n)[0]);
    }
  }

  function Zeros(k: nat): (r: string)
    ensures |r| == k
  {
    seq(k, _ => '0')
  }

  function Abs(n: int): nat {
    if n < 0 then -n else n
  }

  /** `s` writes `v` in decimal the way `Integer.toString` does, except
      that a `+` may lead, leading zeros may follow the sign, and zero may
      carry a minus sign. */
  predicate WritesInDecimal(s: string, v: int) {
    var d := Unsigned(s);
    var w := ShowNat(Abs(v));
    s != [] && |w| <= |d| && d == Zeros(|d| - |w|) + w &&
    (v < 0 ==> s[0] == '-') && (s[0] == '-' ==> v <= 0)
  }

  lemma {:induction false} ZerosValue(k: nat)
    ensures AllDigits(Zeros(k)) && DigitsValue(Zeros(k)) == 0
  {
    if k > 0 {
      ZerosValue(k - 1);
      assert Zeros(k)[..k - 1] == Zeros(k - 1);
    }
  }

  /** Leading zeros do not change the value of a run of digits. */
  lemma {:induction false} DigitsValueAfterZeros(k: nat, x: string)
    requires AllDigits(x)
    ensures AllDigits(Zeros(k) + x) && DigitsValue(Zeros(k) + x) == DigitsValue(x)
    decreases |x|
  {
    var d := Zeros(k) + x;
    if x == [] {
      assert d == Zeros(k);
      ZerosValue(k);
    } else {
      var p := x[..|x| - 1];
      DigitsValueAfterZeros(k, p);
      assert d[..|d| - 1] == Zeros(k) + p;
      assert d[|d| - 1] == x[|x| - 1];
    }
  }

  /** A run of digits whose value is zero is all zeros. */
  lemma {:induction false} ZeroValueIsZeros(d: string)
    requires AllDigits(d) && DigitsValue(d) == 0
    ensures d == Zeros(|d|)
    decreases |d|
  {
    if d != [] {
      var p := d[..|d| - 1];
      ZeroValueIsZeros(p);
      assert d == p + [d[|d| - 1]];
    }
  }

  /** A non-empty run of digits is the decimal rendering of its value with
      leading zeros in front. */
  lemma {:induction false} DigitsAreCanonical(d: string)
    requires d != [] && AllDigits(d)
    ensures var w := ShowNat(DigitsValue(d)); |w| <= |d| && d == Zeros(|d| - |w|) + w
    decreases |d|
  {
    var p := d[..|d| - 1];
    var c := d[|d| - 1];
    var n := DigitsValue(d);
    assert d == p + [c];
    if DigitsValue(p) == 0 {
      ZeroValueIsZeros(p);
      assert n == c as int - '0' as int;
      assert ShowNat(n) == [c];
    } else {
      DigitsAreCanonical(p);
      assert n / 10 == DigitsValue(p) && n % 10 == c as int - '0' as int;
      assert ShowNat(n) == ShowNat(DigitsValue(p)) + [c];
      var w := ShowNat(DigitsValue(p));
      assert d == Zeros(|p| - |w|) + w + [c];
    }
  }

  /** `parseInt` accepts exactly the decimal writings of 32-bit integers
      (with an optional `+`, leading zeros and `-0`), and gives the value
      written. */
  lemma ParseIntIffWritten(s: string, v: int)
    ensures ParseInt(s) == Some(v) <==> IntMin <= v <= IntMax && WritesInDecimal(s, v)
  {
    var d := Unsigned(s);
    if ParseInt(s) == Some(v) {
      DigitsAreCanonical(d);
      assert Abs(v) == DigitsValue(d);
    }
    if IntMin <= v <= IntMax && WritesInDecimal(s, v) {
      var w := ShowNat(Abs(v));
      DigitsValueAfterZeros(|d| - |w|, w);
      DigitsOfShowNat(Abs(v));
      assert DigitsValue(d) == Abs(v);
    }
  }

  /** Strings `parseInt` refuses and accepts. */
  lemma ParseIntSamples()
    ensures ParseInt("").None? && ParseInt("+").None? && ParseInt("-").None?
    ensures ParseInt("1x").None? && ParseInt(" 3").None?
    ensures ParseInt("+5") == Some(5) && ParseInt("007") == Some(7) && ParseInt("-0") == Some(0)
  {
    assert !IsDigit("1x"[1]);
    assert !IsDigit(" 3"[0]);
    assert Unsigned("+5") == "5";
    assert Unsigned("-0") == "0";
    assert "007"[..2] == "00" && "00"[..1] == "0";
  }

  /** The 32-bit bounds: one past the largest value is refused, the
      smallest value is accepted. */
  lemma ParseIntBounds()
    ensures ParseInt("2147483648").None?
    ensures ParseInt("-2147483648") == Some(IntMin)
  {
    assert AllDigits("2147483648");
    assert Unsigned("-2147483648") == "2147483648";
    assert DigitsValue("2") == 2;
    assert "21"[..1] == "2";
    assert DigitsValue("21") == 21;
    assert "214"[..2] == "21";
    assert DigitsValue("214") == 214;
    assert "2147"[..3] == "214";
    assert DigitsValue("2147") == 2147;
    assert "21474"[..4] == "2147";
    assert DigitsValue("21474") == 21474;
    assert "214748"[..5] == "21474";
    assert DigitsValue("214748") == 214748;
    assert "2147483"[..6] == "214748";
    assert DigitsValue("2147483") == 2147483;
    assert "21474836"[..7] == "2147483";
    assert DigitsValue("21474836") == 21474836;
    assert "214748364"[..8] == "21474836";
    assert DigitsValue("214748364") == 214748364;
    assert "2147483648"[..9] == "214748364";
    assert DigitsValue("2147483648") == 2147483648;
  }
}
