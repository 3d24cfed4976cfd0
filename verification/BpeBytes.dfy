/** The byte layer of the tokenizer: UTF-8 scanning (src/bpe.h utf8_codepoint), validity of
    the input, and the GPT-2 byte-to-symbol table (src/bpe.h build_byte_encoder). */
module BpeBytes {
  import opened Seqs

  // ----- UTF-8 scanning -------------------------------------------------------------------

  /** How far utf8_codepoint advances from a byte. Stray continuation bytes and 0xF8..0xFF
      take the defensive one-byte branch. */
  function Adv(c: Byte): (n: nat)
    ensures 1 <= n <= 4
  {
    if c < 0x80 then 1
    else if 0xC0 <= c < 0xE0 then 2
    else if 0xE0 <= c < 0xF0 then 3
    else if 0xF0 <= c < 0xF8 then 4
    else 1
  }

  predicate IsCont(c: Byte) { 0x80 <= c < 0xC0 }

  /** No lead byte announces more bytes than the text still has: this is all the scanner needs
      to stay inside its buffer, from whatever byte it starts. */
  predicate Complete(s: seq<Byte>) {
    forall i | 0 <= i < |s| :: i + Adv(s[i]) <= |s|
  }

  /** The codepoint utf8_codepoint returns at byte i. */
  function Cp(s: seq<Byte>, i: nat): (cp: nat)
    requires i < |s| && i + Adv(s[i]) <= |s|
  {
    var c := s[i] as int;
    if c < 0x80 then c
    else if 0xC0 <= c < 0xE0 then c % 32 * 64 + Low6(s[i + 1])
    else if 0xE0 <= c < 0xF0 then c % 16 * 4096 + Low6(s[i + 1]) * 64 + Low6(s[i + 2])
    else if 0xF0 <= c < 0xF8 then
      c % 8 * 262144 + Low6(s[i + 1]) * 4096 + Low6(s[i + 2]) * 64 + Low6(s[i + 3])
    else c
  }

  function Low6(b: Byte): int { b as int % 64 }

  /** No multi-byte sequence decodes to an ASCII codepoint. */
  predicate NoOverlongAscii(s: seq<Byte>)
    requires Complete(s)
  {
    forall i | 0 <= i < |s| :: Adv(s[i]) > 1 ==> Cp(s, i) >= 0x80
  }

  // ----- validity -------------------------------------------------------------------------

  /** One UTF-8 encoded character, by the grammar of section 4 of RFC 3629. */
  predicate Utf8Char(m: seq<Byte>) {
    match |m|
    case 1 => m[0] < 0x80
    case 2 => 0xC2 <= m[0] <= 0xDF && IsCont(m[1])
    case 3 =>
      && IsCont(m[2])
      && (|| (m[0] == 0xE0 && 0xA0 <= m[1] <= 0xBF)
          || (0xE1 <= m[0] <= 0xEC && IsCont(m[1]))
          || (m[0] == 0xED && 0x80 <= m[1] <= 0x9F)
          || (0xEE <= m[0] <= 0xEF && IsCont(m[1])))
    case 4 =>
      && IsCont(m[2]) && IsCont(m[3])
      && (|| (m[0] == 0xF0 && 0x90 <= m[1] <= 0xBF)
          || (0xF1 <= m[0] <= 0xF3 && IsCont(m[1]))
          || (m[0] == 0xF4 && 0x80 <= m[1] <= 0x8F))
    case _ => false
  }

  /** A valid UTF-8 string: characters one after the other. */
  predicate ValidUtf8(s: seq<Byte>) {
    s == [] || (Adv(s[0]) <= |s| && Utf8Char(s[..Adv(s[0])]) && ValidUtf8(s[Adv(s[0])..]))
  }

  /** Every lead byte is followed, inside the text, by exactly the continuation bytes it
      announces, and they do not spell an ASCII codepoint. Holds of every valid UTF-8 text, and
      survives cutting at a lead byte. */
  predicate Shaped(s: seq<Byte>) {
    forall i | 0 <= i < |s| :: LeadFits(s, i)
  }

  predicate LeadFits(s: seq<Byte>, i: nat)
    requires i < |s|
  {
    && i + Adv(s[i]) <= |s|
    && (forall j | i < j < i + Adv(s[i]) :: IsCont(s[j]))
    && (Adv(s[i]) > 1 ==> Cp(s, i) >= 0x80)
  }

  lemma {:induction false} ValidIsShaped(s: seq<Byte>)
    requires ValidUtf8(s)
    ensures Shaped(s)
    ensures s != [] ==> !IsCont(s[0])
    decreases |s|
  {
    hide LeadFits, Adv, Utf8Char, IsCont;
    if s != [] {
      var n := Adv(s[0]);
      var t := s[n..];
      ValidIsShaped(t);
      ValidCharFits(s, 0);
      forall i | 0 <= i < |s| ensures LeadFits(s, i) {
        if i >= n {
          assert LeadFits(t, i - n);
          TailFits(s, n, i);
        } else {
          ValidCharFits(s, i);
        }
      }
    }
  }

  lemma TailFits(s: seq<Byte>, n: nat, i: nat)
    requires n <= i < |s| && LeadFits(s[n..], i - n)
    ensures LeadFits(s, i)
  {
    var t := s[n..];
    assert t == s[n..|s|] && i + Adv(s[i]) <= |s|;
    hide LeadFits;
    FitsInside(s, n, |s|, i - n);
  }

  lemma ShapedIsComplete(s: seq<Byte>)
    requires Shaped(s)
    ensures Complete(s) && NoOverlongAscii(s)
  {
    forall i | 0 <= i < |s| ensures i + Adv(s[i]) <= |s| && (Adv(s[i]) > 1 ==> Cp(s, i) >= 0x80) {
      assert LeadFits(s, i);
    }
  }

  lemma ValidCharFits(s: seq<Byte>, i: nat)
    requires s != [] && i < Adv(s[0]) <= |s| && Utf8Char(s[..Adv(s[0])])
    ensures LeadFits(s, i) && !IsCont(s[0])
  {
    var n := Adv(s[0]);
    var m := s[..n];
    assert forall j | 0 <= j < n :: m[j] == s[j];
    CharBytes(m);
    if i > 0 { assert IsCont(s[i]); }
  }

  /** The bytes of a character behind the first are continuation bytes, and no longer character
      spells an ASCII codepoint. */
  lemma CharBytes(m: seq<Byte>)
    requires m != [] && |m| == Adv(m[0]) && Utf8Char(m)
    ensures !IsCont(m[0]) && (forall j | 0 < j < |m| :: IsCont(m[j])) && (|m| > 1 ==> Cp(m, 0) >= 0x80)
  {
  }

  /** A lead byte fits in a slice exactly when it fits in the whole text and ends in the slice. */
  lemma FitsInside(s: seq<Byte>, a: nat, b: nat, i: nat)
    requires a + i < b <= |s|
    ensures a + i + Adv(s[a + i]) <= b ==> LeadFits(s[a..b], i) == LeadFits(s, a + i)
  {
    var t := s[a..b];
    var n := Adv(t[i]);
    if i + n <= |t| {
      assert forall j | i < j < i + n :: t[j] == s[a + j];
      assert (forall j | i < j < i + n :: IsCont(t[j])) == (forall j | a + i < j < a + i + n :: IsCont(s[j])) by {
        if forall j | i < j < i + n :: IsCont(t[j]) {
          forall j | a + i < j < a + i + n ensures IsCont(s[j]) { assert t[j - a] == s[j]; }
        }
      }
    }
  }

  /** Cutting a shaped text in front of a byte that is not a continuation byte leaves two
      shaped texts: no character is torn. */
  lemma ShapedCut(s: seq<Byte>, a: nat, b: nat)
    requires Shaped(s) && a <= b <= |s|
    requires b < |s| ==> !IsCont(s[b])
    ensures Shaped(s[a..b]) && Complete(s[a..b]) && NoOverlongAscii(s[a..b])
  {
    var t := s[a..b];
    forall i | 0 <= i < |t| ensures LeadFits(t, i) {
      assert LeadFits(s, a + i);
      FitsInside(s, a, b, i);
    }
    ShapedIsComplete(t);
  }

  // ----- the byte-to-symbol table ---------------------------------------------------------

  /** Bytes that keep their own codepoint. */
  predicate Printable(b: int) {
    0x21 <= b <= 0x7E || 0xA1 <= b <= 0xAC || 0xAE <= b <= 0xFF
  }

  /** How many of the bytes below b are not printable. */
  function Remapped(b: nat): (n: nat)
    ensures n <= b
  {
    if b == 0 then 0 else Remapped(b - 1) + (if Printable(b - 1) then 0 else 1)
  }

  /** The codepoint that stands for byte b: itself, or the next free one from 256 on. */
  function ByteCp(b: Byte): (cp: nat)
    ensures cp < 512
  {
    if Printable(b) then b else 256 + Remapped(b)
  }

  /** UTF-8 encoding of a codepoint, with the three lengths the table builder knows. */
  function EncodeCp(cp: nat): (r: seq<Byte>)
    requires cp < 0x10000
  {
    if cp < 0x80 then [cp]
    else if cp < 0x800 then [0xC0 + cp / 64, 0x80 + cp % 64]
    else [0xE0 + cp / 4096, 0x80 + cp / 64 % 64, 0x80 + cp % 64]
  }

  /** The symbol of a byte. */
  function Symbol(b: Byte): seq<Byte> { EncodeCp(ByteCp(b)) }

  lemma {:induction false} RemappedGrows(a: nat, b: nat)
    requires a < b && !Printable(a)
    ensures Remapped(a) < Remapped(b)
    decreases b
  {
    if a + 1 < b { RemappedGrows(a, b - 1); }
  }

  /** The table byte by byte: the printable ones stand for themselves, the others for U+0100 and up, in
      order - 0x00 to 0x20 first, then 0x7F to 0xA0, then 0xAD. */
  lemma ByteTable(b: Byte)
    ensures ByteCp(b) == if b <= 0x20 then 0x100 + b
                         else if b <= 0x7E then b
                         else if b <= 0xA0 then 0x121 + (b - 0x7F)
                         else if b == 0xAD then 0x143
                         else b
  {
    RemappedValue(b);
  }

  /** A symbol is the one- or two-byte UTF-8 form of its codepoint. */
  lemma SymbolBytes(b: Byte)
    ensures var cp := ByteCp(b);
            if cp < 0x80 then Symbol(b) == [cp]
            else |Symbol(b)| == 2 && (Symbol(b)[0] as int - 0xC0) * 0x40 + (Symbol(b)[1] as int - 0x80) == cp
                 && 0xC2 <= Symbol(b)[0] <= 0xDF && 0x80 <= Symbol(b)[1] <= 0xBF
  {
    hide ByteCp;
  }

  /** Different bytes get different codepoints. */
  lemma ByteCpInjective(a: Byte, b: Byte)
    requires ByteCp(a) == ByteCp(b)
    ensures a == b
  {
    if a < b && !Printable(a) && !Printable(b) { RemappedGrows(a, b); }
    if b < a && !Printable(a) && !Printable(b) { RemappedGrows(b, a); }
  }

  /** The symbols form a prefix code: a symbol is one UTF-8 character whose own first byte
      tells its length, and the codepoint read back from it identifies the byte. */
  lemma SymbolIsOneChar(b: Byte, rest: seq<Byte>)
    ensures Adv(Symbol(b)[0]) == |Symbol(b)| && Cp(Symbol(b) + rest, 0) == ByteCp(b)
  {
    hide ByteCp;
    var cp, s := ByteCp(b), Symbol(b) + rest;
    if cp < 0x80 {
      assert s[0] == cp as Byte;
    } else {
      TwoBytes(cp);
      var lead, cont := (0xC0 + cp / 64) as Byte, (0x80 + cp % 64) as Byte;
      assert Symbol(b) == [lead, cont] && s[0] == lead && s[1] == cont;
    }
  }

  /** A codepoint below 512 splits into a two-byte lead and six continuation bits. */
  lemma TwoBytes(cp: nat)
    requires 0x80 <= cp < 0x200
    ensures 0xC0 <= 0xC0 + cp / 64 < 0xE0 && 0x80 <= 0x80 + cp % 64 < 0xC0
    ensures (0xC0 + cp / 64) % 32 * 64 + (0x80 + cp % 64) % 64 == cp
  {
  }

  /** Raw text bytes to symbol string. */
  function ByteLevel(text: seq<Byte>): seq<Byte> {
    if text == [] then [] else Symbol(text[0]) + ByteLevel(text[1..])
  }

  lemma {:induction false} ByteLevelAppend(a: seq<Byte>, b: seq<Byte>)
    ensures ByteLevel(a + b) == ByteLevel(a) + ByteLevel(b)
  {
    if a == [] {
      assert a + b == b;
    } else {
      assert (a + b)[1..] == a[1..] + b;
      ByteLevelAppend(a[1..], b);
    }
  }

  /** The byte-level encoding loses nothing. */
  lemma {:induction false} ByteLevelInjective(a: seq<Byte>, b: seq<Byte>)
    requires ByteLevel(a) == ByteLevel(b)
    ensures a == b
    decreases |a|
  {
    if a != [] && b != [] {
      var (ra, rb) := (ByteLevel(a[1..]), ByteLevel(b[1..]));
      SymbolIsOneChar(a[0], ra);
      SymbolIsOneChar(b[0], rb);
      assert ByteLevel(a)[0] == Symbol(a[0])[0] && ByteLevel(b)[0] == Symbol(b[0])[0];
      ByteCpInjective(a[0], b[0]);
      assert ra == ByteLevel(a)[|Symbol(a[0])|..] && rb == ByteLevel(b)[|Symbol(b[0])|..];
      ByteLevelInjective(a[1..], b[1..]);
    }
  }

  /** Where the table builder lists byte b. */
  function Slot(b: Byte): (i: nat)
  {
    if 0x21 <= b <= 0x7E then b - 0x21
    else if 0xA1 <= b <= 0xAC then b - 0xA1 + 94
    else if 0xAE <= b <= 0xFF then b - 0xAE + 106
    else 188 + Remapped(b)
  }

  lemma {:induction false} RemappedValue(b: nat)
    requires b <= 256
    ensures Remapped(b) == if b <= 0x21 then b else if b <= 0x7F then 0x21
                           else if b <= 0xA1 then b - 94 else if b <= 0xAD then 67 else 68
  {
    if b > 0 { RemappedValue(b - 1); }
  }

  /** The bytes listed so far, each with its codepoint. */
  ghost predicate Listed(bs: array<Byte>, cs: array<int>, total: int)
    reads bs, cs
  {
    && 0 <= total <= bs.Length == cs.Length == 256
    && forall i | 0 <= i < total :: cs[i] == ByteCp(bs[i])
  }

  /** One printable range: bytes first..last take the next free slots and keep their codepoint. */
  method ListRange(bs: array<Byte>, cs: array<int>, total: nat, first: Byte, last: Byte)
    returns (newTotal: nat)
    requires Listed(bs, cs, total)
    requires first <= last && forall b: Byte | first <= b <= last :: Printable(b) && Slot(b) == total + b - first
    requires total + last - first < 188
    modifies bs, cs
    ensures newTotal == total + last - first + 1 && Listed(bs, cs, newTotal)
    ensures forall b: Byte | first <= b <= last :: bs[Slot(b)] == b
    ensures forall i | total <= i < newTotal :: first <= bs[i] <= last
    ensures forall i | 0 <= i < total :: bs[i] == old(bs[i])
  {
    hide Slot, Printable, Remapped;
    newTotal := total;
    for b := first as int to last + 1
      invariant newTotal == total + b - first && Listed(bs, cs, newTotal)
      invariant forall c: Byte | first <= c < b :: bs[Slot(c)] == c
      invariant forall i | total <= i < newTotal :: first <= bs[i] <= last
      invariant forall i | 0 <= i < total :: bs[i] == old(bs[i])
    {
      bs[newTotal], cs[newTotal], newTotal := b, b, newTotal + 1;
    }
  }

  lemma RemappedStep(b: nat)
    requires b < 256
    ensures Remapped(b + 1) == Remapped(b) + (if Printable(b) then 0 else 1) <= 68
  {
    RemappedValue(b + 1);
  }

  /** The bytes no range listed take codepoints from 256 on, in order. */
  method ListRest(bs: array<Byte>, cs: array<int>, used: array<bool>)
    requires Listed(bs, cs, 188) && used.Length == 256 && used != bs as object && used != cs as object
    requires forall b: Byte :: used[b] == Printable(b)
    modifies bs, cs
    ensures Listed(bs, cs, 256)
    ensures forall b: Byte | !Printable(b) :: Slot(b) < 256 && bs[Slot(b)] == b
    ensures forall i | 0 <= i < 188 :: bs[i] == old(bs[i])
  {
    hide Remapped;
    var n, total := 0, 188;
    RemappedValue(0);
    for b := 0 to 256
      invariant n == Remapped(b) && total == 188 + n && n <= 68 && Listed(bs, cs, total)
      invariant forall c: Byte | c < b && !Printable(c) :: Slot(c) < total && bs[Slot(c)] == c
      invariant forall i | 0 <= i < 188 :: bs[i] == old(bs[i])
    {
      RemappedValue(b);
      RemappedStep(b);
      if !used[b] {
        bs[total], cs[total] := b, 256 + n;
        n, total := n + 1, total + 1;
      }
    }
    RemappedValue(256);
  }

  /** The three printable ranges take slots 0 to 187 in order, and nothing else is printable. */
  lemma RangeSlots()
    ensures forall b: Byte | 0x21 <= b <= 0x7E :: Printable(b) && Slot(b) == b - 0x21
    ensures forall b: Byte | 0xA1 <= b <= 0xAC :: Printable(b) && Slot(b) == 94 + b - 0xA1
    ensures forall b: Byte | 0xAE <= b <= 0xFF :: Printable(b) && Slot(b) == 106 + b - 0xAE
    ensures forall b: Byte | Printable(b) :: 0x21 <= b <= 0x7E || 0xA1 <= b <= 0xAC || 0xAE <= b <= 0xFF
  {
  }

  /** The first phase of the table builder: the three printable ranges, then the rest. */
  method ListBytes() returns (bs: array<Byte>, cs: array<int>)
    ensures fresh(bs) && fresh(cs) && Listed(bs, cs, 256)
    ensures forall b: Byte :: Slot(b) < 256 && bs[Slot(b)] == b
  {
    hide Slot, Printable, Remapped;
    RangeSlots();
    bs, cs := new Byte[256], new int[256];
    var total := ListRange(bs, cs, 0, 0x21, 0x7E);
    total := ListRange(bs, cs, total, 0xA1, 0xAC);
    total := ListRange(bs, cs, total, 0xAE, 0xFF);
    var used := new bool[256](_ => false);
    MarkUsed(bs, total, used);
    ListRest(bs, cs, used);
  }

  /** Marks the bytes already listed. */
  method MarkUsed(bs: array<Byte>, total: nat, used: array<bool>)
    requires total == 188 && bs.Length == used.Length == 256 && used != bs as object
    requires forall b: Byte | Printable(b) :: bs[Slot(b)] == b
    requires forall i | 0 <= i < total :: Printable(bs[i])
    requires forall b: Byte :: !used[b]
    modifies used
    ensures forall b: Byte :: used[b] == Printable(b)
  {
    for i := 0 to total
      invariant forall b: Byte :: used[b] ==> Printable(b)
      invariant forall b: Byte | Printable(b) && Slot(b) < i :: used[b]
    {
      used[bs[i]] := true;
    }
  }

  /** Fills the 256-entry table with every byte's symbol. */
  method BuildByteEncoder() returns (byte2str: array<seq<Byte>>)
    ensures fresh(byte2str) && byte2str.Length == 256
    ensures forall b: Byte :: byte2str[b] == Symbol(b)
  {
    var bs, cs := ListBytes();
    byte2str := new seq<Byte>[256](_ => []);
    for i := 0 to 256
      modifies byte2str
      invariant forall b: Byte | Slot(b) < i :: byte2str[b] == Symbol(b)
    {
      byte2str[bs[i]] := EncodeCp(cs[i]);
    }
  }
}
