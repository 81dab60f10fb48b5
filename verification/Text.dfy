/** Decimal and hexadecimal rendering, and text split at colons. */
module Text {

  type byte = x: int | 0 <= x < 256

  const HEX := "0123456789abcdef"

  ghost predicate ColonFree(s: string) {
    ':' !in s
  }

  function Digit(d: nat): char
    requires d < 16
  {
    HEX[d]
  }

  function DigitValue(c: char): nat {
    if '0' <= c <= '9' then c as int - '0' as int else if 'a' <= c <= 'f' then c as int - 'a' as int + 10 else 0
  }

  lemma DigitBack(d: nat)
    requires d < 16
    ensures DigitValue(Digit(d)) == d && Digit(d) != ':' && Digit(d) != '-'
  {
  }

  /** `%d` of a number that is not negative. */
  function Decimal(n: nat): string {
    if n < 10 then [Digit(n)] else Decimal(n / 10) + [Digit(n % 10)]
  }

  /** `%d` */
  function Signed(n: int): string {
    if n < 0 then "-" + Decimal(-n) else Decimal(n)
  }

  function Value(s: string): nat {
    if s == "" then 0 else 10 * Value(s[..|s| - 1]) + DigitValue(s[|s| - 1])
  }

  lemma {:induction false} DecimalBack(n: nat)
    ensures Value(Decimal(n)) == n && ColonFree(Decimal(n)) && '-' !in Decimal(n) && Decimal(n) != ""
  {
    DigitBack(n % 10);
    if n >= 10 {
      DecimalBack(n / 10);
      assert Decimal(n)[..|Decimal(n)| - 1] == Decimal(n / 10);
    } else {
      assert Decimal(n) == [Digit(n)] && Decimal(n)[..0] == "";
    }
  }

  /** Decimal texts hold digits only and do not begin with a zero, except for zero itself. */
  lemma {:induction false} DecimalDigits(n: nat)
    ensures Decimal(n) != "" && (Decimal(n)[0] == '0' <==> n == 0)
    ensures forall c :: c in Decimal(n) ==> '0' <= c <= '9'
  {
    if n >= 10 {
      DecimalDigits(n / 10);
    }
  }

  lemma SignedInjective(m: int, n: int)
    ensures ColonFree(Signed(n))
    ensures Signed(m) == Signed(n) ==> m == n
  {
    DecimalBack(if m < 0 then -m else m);
    DecimalBack(if n < 0 then -n else n);
    assert '-' in Signed(m) <==> m < 0;
    assert '-' in Signed(n) <==> n < 0;
    if Signed(m) == Signed(n) && m < 0 {
      assert Decimal(-m) == Signed(m)[1..] && Decimal(-n) == Signed(n)[1..];
    }
  }

  /** Lower-case hexadecimal, two characters a byte. */
  function Hex(bs: seq<byte>): string {
    if bs == [] then "" else [Digit(bs[0] / 16), Digit(bs[0] % 16)] + Hex(bs[1..])
  }

  /** Byte i stands at characters 2i and 2i+1, high half first. */
  lemma {:induction false} HexAt(bs: seq<byte>, i: nat)
    requires i < |bs|
    ensures |Hex(bs)| == 2 * |bs|
    ensures 16 * DigitValue(Hex(bs)[2 * i]) + DigitValue(Hex(bs)[2 * i + 1]) == bs[i]
  {
    HexColonFree(bs);
    if i == 0 {
      DigitBack(bs[0] / 16);
      DigitBack(bs[0] % 16);
    } else {
      HexAt(bs[1..], i - 1);
      assert Hex(bs)[2..] == Hex(bs[1..]);
      assert Hex(bs)[2 * i] == Hex(bs)[2..][2 * (i - 1)] && Hex(bs)[2 * i + 1] == Hex(bs)[2..][2 * (i - 1) + 1];
    }
  }

  lemma {:induction false} HexInjective(a: seq<byte>, b: seq<byte>)
    requires Hex(a) == Hex(b)
    ensures a == b
  {
    if a != [] && b != [] {
      DigitBack(a[0] / 16);
      DigitBack(b[0] / 16);
      DigitBack(a[0] % 16);
      DigitBack(b[0] % 16);
      assert Hex(a)[0] == Digit(a[0] / 16) && Hex(a)[1] == Digit(a[0] % 16) && Hex(a)[2..] == Hex(a[1..]);
      assert Hex(b)[0] == Digit(b[0] / 16) && Hex(b)[1] == Digit(b[0] % 16) && Hex(b)[2..] == Hex(b[1..]);
      assert a[0] == b[0];
      HexInjective(a[1..], b[1..]);
      assert a == [a[0]] + a[1..] && b == [b[0]] + b[1..];
    }
  }

  lemma {:induction false} HexColonFree(bs: seq<byte>)
    ensures ColonFree(Hex(bs)) && |Hex(bs)| == 2 * |bs|
  {
    if bs != [] {
      DigitBack(bs[0] / 16);
      DigitBack(bs[0] % 16);
      HexColonFree(bs[1..]);
    }
  }

  /** The first colon splits a text in one way. */
  lemma SplitOnce(a: string, b: string, c: string, d: string)
    requires a + ":" + b == c + ":" + d && ColonFree(a) && ColonFree(c)
    ensures a == c && b == d
  {
    var s, t := a + ":" + b, c + ":" + d;
    assert s[|a|] == ':' && t[|c|] == ':';
    assert forall i :: 0 <= i < |a| ==> s[i] == a[i] && a[i] != ':';
    assert forall i :: 0 <= i < |c| ==> t[i] == c[i] && c[i] != ':';
    assert s[..|a|] == a && t[..|a|] == c;
    assert s[|a| + 1..] == b && t[|a| + 1..] == d;
  }

  /** The pieces between colons: one more than there are colons. */
  function Split(s: string): (parts: seq<string>)
    ensures |parts| >= 1
  {
    if s == "" then [""]
    else if s[0] == ':' then [""] + Split(s[1..])
    else
      var rest := Split(s[1..]);
      [[s[0]] + rest[0]] + rest[1..]
  }

  lemma {:induction false} SplitCons(a: string, b: string)
    requires ColonFree(a)
    ensures Split(a + ":" + b) == [a] + Split(b)
  {
    var s := a + ":" + b;
    if a == "" {
      assert s[1..] == b;
    } else {
      assert s[1..] == a[1..] + ":" + b;
      SplitCons(a[1..], b);
      assert [a[0]] + a[1..] == a;
    }
  }

  lemma {:induction false} SplitWhole(a: string)
    ensures ColonFree(a) ==> Split(a) == [a]
    ensures !ColonFree(a) ==> |Split(a)| >= 2
  {
    if a != "" {
      SplitWhole(a[1..]);
      assert a == [a[0]] + a[1..];
    }
  }

  lemma {:induction false} SplitColonFree(s: string)
    ensures forall i :: 0 <= i < |Split(s)| ==> ColonFree(Split(s)[i])
  {
    if s != "" {
      SplitColonFree(s[1..]);
    }
  }

  /** A first character that is no colon belongs to the first piece. */
  function WithFirst(c: char, parts: seq<string>): seq<string>
    requires parts != []
  {
    if c == ':' then [""] + parts else [[c] + parts[0]] + parts[1..]
  }

  lemma SplitHead(c: char, s: string)
    ensures Split([c] + s) == WithFirst(c, Split(s))
  {
    assert ([c] + s)[1..] == s;
  }

  lemma WithFirstConcat(c: char, p: seq<string>, q: seq<string>)
    requires p != []
    ensures WithFirst(c, p + q) == WithFirst(c, p) + q
  {
  }

  lemma SplitOneMore(c: char, a: string, t: string, b: string)
    requires Split(t) == Split(a) + Split(b)
    ensures Split([c] + t) == Split([c] + a) + Split(b)
  {
    SplitHead(c, a);
    SplitHead(c, t);
    WithFirstConcat(c, Split(a), Split(b));
  }

  /** The pieces of two texts with a colon in between are the pieces of both. */
  lemma {:induction false} SplitConcat(a: string, b: string)
    ensures Split(a + ":" + b) == Split(a) + Split(b)
  {
    if a == "" {
      assert a + ":" + b == [':'] + b;
      SplitHead(':', b);
    } else {
      SplitConcat(a[1..], b);
      SplitOneMore(a[0], a[1..], a[1..] + ":" + b, b);
      assert a == [a[0]] + a[1..];
      assert a + ":" + b == [a[0]] + (a[1..] + ":" + b);
    }
  }

  lemma SplitSix(a: string, b: string, c: string, d: string, e: string, f: string)
    requires ColonFree(b) && ColonFree(c) && ColonFree(e)
    ensures Split(a + ":" + (b + ":" + (c + ":" + (d + ":" + (e + ":" + f))))) ==
              Split(a) + ([b] + ([c] + (Split(d) + ([e] + Split(f)))))
  {
    SplitConcat(a, b + ":" + (c + ":" + (d + ":" + (e + ":" + f))));
    SplitCons(b, c + ":" + (d + ":" + (e + ":" + f)));
    SplitCons(c, d + ":" + (e + ":" + f));
    SplitConcat(d, e + ":" + f);
    SplitCons(e, f);
  }
}
