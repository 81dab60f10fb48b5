/** Base64 with the URL and filename safe alphabet of section 5 of RFC 4648, without padding. */
module Base64Url {
  import opened ThreadTypes
  import opened Text

  type sextet = x: int | 0 <= x < 64

  function Symbol(d: sextet): char {
    if d < 26 then ('A' as int + d) as char
    else if d < 52 then ('a' as int + d - 26) as char
    else if d < 62 then ('0' as int + d - 52) as char
    else if d == 62 then '-'
    else '_'
  }

  function SymbolValue(c: char): Option<sextet> {
    if 'A' <= c <= 'Z' then Some(c as int - 'A' as int)
    else if 'a' <= c <= 'z' then Some(c as int - 'a' as int + 26)
    else if '0' <= c <= '9' then Some(c as int - '0' as int + 52)
    else if c == '-' then Some(62)
    else if c == '_' then Some(63)
    else None
  }

  predicate IsNewline(c: char) {
    c == '\r' || c == '\n'
  }

  lemma SymbolBack(d: sextet)
    ensures SymbolValue(Symbol(d)) == Some(d) && Symbol(d) != ':' && !IsNewline(Symbol(d))
  {
  }

  function Digit2(a: byte, b: byte): sextet {
    a % 4 * 16 + b / 16
  }

  function Digit3(b: byte, c: byte): sextet {
    b % 16 * 4 + c / 64
  }

  /** Three bytes give four digits; one or two bytes at the end give two or three. */
  function Digits(bs: seq<byte>): seq<sextet> {
    if |bs| == 0 then []
    else if |bs| == 1 then [bs[0] / 4, Digit2(bs[0], 0)]
    else if |bs| == 2 then [bs[0] / 4, Digit2(bs[0], bs[1]), Digit3(bs[1], 0)]
    else [bs[0] / 4, Digit2(bs[0], bs[1]), Digit3(bs[1], bs[2]), bs[2] % 64] + Digits(bs[3..])
  }

  function Symbols(ds: seq<sextet>): string {
    seq(|ds|, i requires 0 <= i < |ds| => Symbol(ds[i]))
  }

  function Encode(bs: seq<byte>): string {
    Symbols(Digits(bs))
  }

  function Sextets(s: string): Option<seq<sextet>> {
    if s == "" then Some([])
    else
      var d := SymbolValue(s[0]);
      var ds := Sextets(s[1..]);
      if d.None? || ds.None? then None else Some([d.value] + ds.value)
  }

  function First(a: sextet, b: sextet): byte {
    a * 4 + b / 16
  }

  function Second(b: sextet, c: sextet): byte {
    b % 16 * 16 + c / 4
  }

  function Third(c: sextet, d: sextet): byte {
    c % 4 * 64 + d
  }

  /** The spare bits of a last short group are ignored; a single last symbol is an error. */
  function Assemble(ds: seq<sextet>): Option<seq<byte>> {
    if |ds| == 0 then Some([])
    else if |ds| == 1 then None
    else if |ds| == 2 then Some([First(ds[0], ds[1])])
    else if |ds| == 3 then Some([First(ds[0], ds[1]), Second(ds[1], ds[2])])
    else
      var rest := Assemble(ds[4..]);
      if rest.None? then None
      else Some([First(ds[0], ds[1]), Second(ds[1], ds[2]), Third(ds[2], ds[3])] + rest.value)
  }

  function DropNewlines(s: string): string {
    if s == "" then "" else (if IsNewline(s[0]) then "" else [s[0]]) + DropNewlines(s[1..])
  }

  /** Carriage returns and line feeds are skipped wherever they stand. */
  function Decode(s: string): Option<seq<byte>> {
    var ds := Sextets(DropNewlines(s));
    if ds.None? then None else Assemble(ds.value)
  }

  // ---- the round trip ----

  lemma {:induction false} SextetsBack(ds: seq<sextet>)
    ensures Sextets(Symbols(ds)) == Some(ds)
    ensures DropNewlines(Symbols(ds)) == Symbols(ds)
    ensures ColonFree(Symbols(ds))
  {
    if ds != [] {
      SymbolBack(ds[0]);
      SextetsBack(ds[1..]);
      assert Symbols(ds) == [Symbol(ds[0])] + Symbols(ds[1..]);
      assert Symbols(ds)[1..] == Symbols(ds[1..]);
      assert ds == [ds[0]] + ds[1..];
    }
  }

  lemma GroupBack(a: byte, b: byte, c: byte)
    ensures First(a / 4, Digit2(a, b)) == a && Second(Digit2(a, b), Digit3(b, c)) == b
    ensures Third(Digit3(b, c), c % 64) == c
  {
  }

  lemma WholeGroup(a: byte, b: byte, c: byte, ds: seq<sextet>, tail: seq<byte>)
    requires Assemble(ds) == Some(tail)
    ensures Assemble([a / 4, Digit2(a, b), Digit3(b, c), c % 64] + ds) == Some([a, b, c] + tail)
  {
    GroupBack(a, b, c);
    var all := [a / 4, Digit2(a, b), Digit3(b, c), c % 64] + ds;
    assert all[4..] == ds;
  }

  lemma OneByte(a: byte)
    ensures Assemble([a / 4, Digit2(a, 0)]) == Some([a])
  {
    GroupBack(a, 0, 0);
  }

  lemma TwoBytes(a: byte, b: byte)
    ensures Assemble([a / 4, Digit2(a, b), Digit3(b, 0)]) == Some([a, b])
  {
    GroupBack(a, b, 0);
  }

  lemma {:induction false} AssembleBack(bs: seq<byte>)
    ensures Assemble(Digits(bs)) == Some(bs)
  {
    if |bs| == 1 {
      OneByte(bs[0]);
      assert bs == [bs[0]];
    } else if |bs| == 2 {
      TwoBytes(bs[0], bs[1]);
      assert bs == [bs[0], bs[1]];
    } else if |bs| >= 3 {
      AssembleBack(bs[3..]);
      WholeGroup(bs[0], bs[1], bs[2], Digits(bs[3..]), bs[3..]);
      assert bs == [bs[0], bs[1], bs[2]] + bs[3..];
    }
  }

  /** Decoding undoes encoding for byte strings of every length, and no symbol is a colon. */
  lemma RoundTrip(bs: seq<byte>)
    ensures Decode(Encode(bs)) == Some(bs)
    ensures ColonFree(Encode(bs))
  {
    SextetsBack(Digits(bs));
    AssembleBack(bs);
  }

  /** Unpadded length: four symbols for three bytes, rounded up to whole symbols. */
  lemma {:induction false} EncodedLength(bs: seq<byte>)
    ensures |Encode(bs)| == (4 * |bs| + 2) / 3
  {
    if |bs| >= 3 {
      EncodedLength(bs[3..]);
    }
  }

  /** Vectors of section 10 of RFC 4648, and one with the two symbols that differ from the standard alphabet. */
  lemma Vectors()
    ensures Encode([]) == "" && Encode([0x66]) == "Zg" && Encode([0x66, 0x6f]) == "Zm8"
    ensures Encode([0x66, 0x6f, 0x6f]) == "Zm9v" && Encode([0xfb, 0xff, 0xbf]) == "-_-_"
  {
    assert [0x66, 0x6f, 0x6f][3..] == [] && [0xfb, 0xff, 0xbf][3..] == [];
    assert Digits([0x66, 0x6f, 0x6f]) == [25, 38, 61, 47];
    assert Digits([0xfb, 0xff, 0xbf]) == [62, 63, 62, 63];
  }
}
