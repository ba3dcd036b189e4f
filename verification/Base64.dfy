/** The base64 of section 4 of RFC 4648, as Go's standard encoding writes and reads it. */
module Base64 {
  import opened Options

  type Byte = b: int | 0 <= b < 256

  type Sextet = v: int | 0 <= v < 64

  function Letter(v: Sextet): char {
    if v < 26 then ('A' as int + v) as char
    else if v < 52 then ('a' as int + v - 26) as char
    else if v < 62 then ('0' as int + v - 52) as char
    else if v == 62 then '+' else '/'
  }

  function ValueOf(c: char): Option<Sextet> {
    if 'A' <= c <= 'Z' then Some(c as int - 'A' as int)
    else if 'a' <= c <= 'z' then Some(c as int - 'a' as int + 26)
    else if '0' <= c <= '9' then Some(c as int - '0' as int + 52)
    else if c == '+' then Some(62)
    else if c == '/' then Some(63)
    else None
  }

  lemma LetterValue(v: Sextet)
    ensures ValueOf(Letter(v)) == Some(v)
    ensures Letter(v) != '=' && Letter(v) != '\n' && Letter(v) != '\r'
  {
  }

  /** Three bytes as four six-bit values, or the one or two bytes left at the end. */
  datatype Group =
    | Full(v0: Sextet, v1: Sextet, v2: Sextet, v3: Sextet)
    | TwoBytes(v0: Sextet, v1: Sextet, v2: Sextet)
    | OneByte(v0: Sextet, v1: Sextet)

  function FullGroup(b0: Byte, b1: Byte, b2: Byte): Group {
    Full(b0 / 4, b0 % 4 * 16 + b1 / 16, b1 % 16 * 4 + b2 / 64, b2 % 64)
  }

  function Groups(b: seq<Byte>): seq<Group> {
    if |b| == 0 then []
    else if |b| == 1 then [OneByte(b[0] / 4, b[0] % 4 * 16)]
    else if |b| == 2 then [TwoBytes(b[0] / 4, b[0] % 4 * 16 + b[1] / 16, b[1] % 16 * 4)]
    else [FullGroup(b[0], b[1], b[2])] + Groups(b[3..])
  }

  /** The bytes of a group; spare bits of the last one are ignored. */
  function GroupBytes(g: Group): seq<Byte> {
    var first := g.v0 * 4 + g.v1 / 16;
    match g
    case Full(_, v1, v2, v3) => [first, v1 % 16 * 16 + v2 / 4, v2 % 4 * 64 + v3]
    case TwoBytes(_, v1, v2) => [first, v1 % 16 * 16 + v2 / 4]
    case OneByte(_, _) => [first]
  }

  function Bytes(gs: seq<Group>): seq<Byte> {
    if gs == [] then [] else GroupBytes(gs[0]) + Bytes(gs[1..])
  }

  function GroupText(g: Group): string {
    match g
    case Full(v0, v1, v2, v3) => [Letter(v0), Letter(v1), Letter(v2), Letter(v3)]
    case TwoBytes(v0, v1, v2) => [Letter(v0), Letter(v1), Letter(v2), '=']
    case OneByte(v0, v1) => [Letter(v0), Letter(v1), '=', '=']
  }

  function Text(gs: seq<Group>): string {
    if gs == [] then "" else GroupText(gs[0]) + Text(gs[1..])
  }

  function Encode(b: seq<Byte>): string {
    Text(Groups(b))
  }

  /** Line breaks are skipped wherever they stand. */
  function Unbroken(s: string): string {
    if s == "" then ""
    else if s[0] == '\n' || s[0] == '\r' then Unbroken(s[1..])
    else [s[0]] + Unbroken(s[1..])
  }

  function ReadGroup(c0: char, c1: char, c2: char, c3: char): Option<Group> {
    match (ValueOf(c0), ValueOf(c1), ValueOf(c2), ValueOf(c3))
    case (Some(v0), Some(v1), Some(v2), Some(v3)) => Some(Full(v0, v1, v2, v3))
    case (Some(v0), Some(v1), Some(v2), None) => if c3 == '=' then Some(TwoBytes(v0, v1, v2)) else None
    case (Some(v0), Some(v1), None, None) => if c2 == '=' && c3 == '=' then Some(OneByte(v0, v1)) else None
    case _ => None
  }

  /** Four characters at a time; only the last group can be padded. */
  function ReadGroups(t: string): Option<seq<Group>> {
    if t == "" then Some([])
    else if |t| < 4 then None
    else
      match ReadGroup(t[0], t[1], t[2], t[3])
      case None => None
      case Some(g) =>
        if !g.Full? && |t| > 4 then None
        else
          match ReadGroups(t[4..])
          case None => None
          case Some(rest) => Some([g] + rest)
  }

  function Decode(s: string): Option<seq<Byte>> {
    match ReadGroups(Unbroken(s))
    case None => None
    case Some(gs) => Some(Bytes(gs))
  }

  // ---------------------------------------------------------------- the standard's own terms

  predicate IsLetter(c: char) {
    'A' <= c <= 'Z' || 'a' <= c <= 'z' || '0' <= c <= '9' || c == '+' || c == '/'
  }

  /** The letters in their order: upper case, lower case, digits, '+' and '/'; nothing else is read as
      one, and each is read as the number it stands for. */
  lemma LettersInOrder(v: Sextet, c: char)
    ensures Letter(0) == 'A' && Letter(26) == 'a' && Letter(52) == '0' && Letter(62) == '+' && Letter(63) == '/'
    ensures v !in {0, 26, 52, 62, 63} ==> Letter(v) as int == Letter(v - 1) as int + 1
    ensures ValueOf(c) == Some(v) <==> c == Letter(v)
    ensures ValueOf(c).Some? <==> IsLetter(c)
  {
  }

  lemma TwentyFourBits(b0: int, b1: int, b2: int)
    requires 0 <= b0 < 256 && 0 <= b1 < 256 && 0 <= b2 < 256
    ensures var n := b0 * 65536 + b1 * 256 + b2;
            && n / 262144 == b0 / 4 && n / 4096 % 64 == b0 % 4 * 16 + b1 / 16
            && n / 64 % 64 == b1 % 16 * 4 + b2 / 64 && n % 64 == b2 % 64
  {
    var n := b0 * 65536 + b1 * 256 + b2;
    assert n / 4096 == (b0 / 4) * 64 + (b0 % 4 * 16 + b1 / 16);
    assert n / 64 == (b0 * 16 + b1 / 16) * 64 + (b1 % 16 * 4 + b2 / 64);
  }

  lemma EncodeSplits(b: seq<Byte>)
    requires |b| >= 3
    ensures Encode(b) == GroupText(FullGroup(b[0], b[1], b[2])) + Encode(b[3..])
  {
    assert Groups(b)[1..] == Groups(b[3..]);
  }

  /** Three bytes are one number of 24 bits, and its four groups of six bits are the letters. */
  lemma EncodesThreeBytes(b: seq<Byte>)
    requires |b| >= 3
    ensures var n := b[0] as int * 65536 + b[1] as int * 256 + b[2] as int;
            Encode(b) == [Letter(n / 262144), Letter(n / 4096 % 64), Letter(n / 64 % 64), Letter(n % 64)] +
                         Encode(b[3..])
  {
    TwentyFourBits(b[0], b[1], b[2]);
    EncodeSplits(b);
  }

  /** One or two bytes at the end are padded with zero bits to whole letters, and with '=' up to four
      characters. */
  lemma EncodesRest(b: seq<Byte>)
    requires |b| < 3
    ensures |b| == 0 ==> Encode(b) == ""
    ensures |b| == 1 ==> var n := b[0] as int * 16; Encode(b) == [Letter(n / 64), Letter(n % 64), '=', '=']
    ensures |b| == 2 ==> var n := (b[0] as int * 256 + b[1] as int) * 4;
              Encode(b) == [Letter(n / 4096), Letter(n / 64 % 64), Letter(n % 64), '=']
  {
    if |b| == 1 {
      OneGroup(Groups(b));
    } else if |b| == 2 {
      OneGroup(Groups(b));
      EighteenBits(b[0], b[1]);
    }
  }

  lemma OneGroup(gs: seq<Group>)
    requires |gs| == 1
    ensures Text(gs) == GroupText(gs[0])
  {
    assert gs[1..] == [] && GroupText(gs[0]) + "" == GroupText(gs[0]);
  }

  lemma EighteenBits(b0: int, b1: int)
    requires 0 <= b0 < 256 && 0 <= b1 < 256
    ensures var n := (b0 * 256 + b1) * 4;
            n / 4096 == b0 / 4 && n / 64 % 64 == b0 % 4 * 16 + b1 / 16 && n % 64 == b1 % 16 * 4
  {
    var n := (b0 * 256 + b1) * 4;
    assert n / 64 == (b0 / 4) * 64 + (b0 % 4 * 16 + b1 / 16);
  }

  /** A text without line breaks that can be read: whole groups of four letters, of which the last one or
      the last two can be padding. */
  predicate IsPadded(t: string) {
    if t == "" then true
    else
      && |t| >= 4 && IsLetter(t[0]) && IsLetter(t[1])
      && if |t| > 4 then IsLetter(t[2]) && IsLetter(t[3]) && IsPadded(t[4..])
         else (IsLetter(t[2]) && (IsLetter(t[3]) || t[3] == '=')) || (t[2] == '=' && t[3] == '=')
  }

  lemma ReadsGroup(c0: char, c1: char, c2: char, c3: char)
    ensures ReadGroup(c0, c1, c2, c3).Some? <==>
            IsLetter(c0) && IsLetter(c1) &&
            ((IsLetter(c2) && (IsLetter(c3) || c3 == '=')) || (c2 == '=' && c3 == '='))
    ensures ReadGroup(c0, c1, c2, c3).Some? && ReadGroup(c0, c1, c2, c3).value.Full? <==>
            IsLetter(c0) && IsLetter(c1) && IsLetter(c2) && IsLetter(c3)
  {
  }

  lemma {:induction false} ReadsPadded(t: string)
    ensures ReadGroups(t).Some? <==> IsPadded(t)
    decreases |t|
  {
    if |t| >= 4 {
      ReadsGroup(t[0], t[1], t[2], t[3]);
      ReadsPadded(t[4..]);
    }
  }

  /** Exactly such texts are read, whatever line breaks stand in between. */
  lemma DecodesIff(s: string)
    ensures Decode(s).Some? <==> IsPadded(Unbroken(s))
  {
    ReadsPadded(Unbroken(s));
  }

  /** Line breaks and nothing else are skipped, wherever they stand. */
  lemma {:induction false} BreaksAreSkipped(a: string, c: char, b: string)
    ensures Unbroken(a + [c] + b) ==
            Unbroken(a) + (if c == '\n' || c == '\r' then "" else [c]) + Unbroken(b)
    decreases |a|
  {
    var s := a + [c] + b;
    if a == "" {
      assert s[1..] == b;
    } else {
      assert s[1..] == a[1..] + [c] + b;
      BreaksAreSkipped(a[1..], c, b);
    }
  }

  /** The bits that fill up the last letter of a padded group are ignored, whatever they are. */
  lemma PaddedGroupRead(v0: Sextet, v1: Sextet, v2: Sextet)
    ensures Decode([Letter(v0), Letter(v1), '=', '=']) == Some([(v0 * 64 + v1) / 16])
    ensures Decode([Letter(v0), Letter(v1), Letter(v2), '=']) ==
            Some([(v0 * 4096 + v1 * 64 + v2) / 1024, (v0 * 4096 + v1 * 64 + v2) / 4 % 256])
  {
    PaddedBits(v0, v1, v2);
    OneGroupRead(OneByte(v0, v1));
    OneGroupRead(TwoBytes(v0, v1, v2));
  }

  lemma PaddedBits(v0: Sextet, v1: Sextet, v2: Sextet)
    ensures (v0 * 64 + v1) / 16 == v0 * 4 + v1 / 16
    ensures var n: int := v0 * 4096 + v1 * 64 + v2;
            n / 1024 == v0 * 4 + v1 / 16 && n / 4 % 256 == v1 % 16 * 16 + v2 / 4
  {
    var n: int := v0 * 4096 + v1 * 64 + v2;
    assert n / 4 == (v0 * 4 + v1 / 16) * 256 + (v1 % 16 * 16 + v2 / 4);
  }

  lemma OneGroupRead(g: Group)
    ensures Decode(GroupText(g)) == Some(GroupBytes(g))
  {
    OneGroup([g]);
    TextHasNoBreak([g]);
    UnbrokenUnchanged(GroupText(g));
    ReadText([g]);
    assert [g][1..] == [] && GroupBytes(g) + [] == GroupBytes(g);
    assert Bytes([g]) == GroupBytes(g) + [];
  }

  // ---------------------------------------------------------------- reading back

  lemma {:induction false} UnbrokenUnchanged(s: string)
    requires '\n' !in s && '\r' !in s
    ensures Unbroken(s) == s
  {
    if s != "" {
      UnbrokenUnchanged(s[1..]);
      assert s == [s[0]] + s[1..];
    }
  }

  lemma {:induction false} TextHasNoBreak(gs: seq<Group>)
    ensures '\n' !in Text(gs) && '\r' !in Text(gs)
    ensures |Text(gs)| == 4 * |gs|
  {
    if gs != [] {
      TextHasNoBreak(gs[1..]);
    }
  }

  lemma EncodeHasNoBreak(b: seq<Byte>)
    ensures '\n' !in Encode(b) && '\r' !in Encode(b)
    ensures Encode(b) == "" <==> b == []
  {
    TextHasNoBreak(Groups(b));
  }

  ghost predicate PaddedAtEnd(gs: seq<Group>) {
    forall i :: 0 <= i < |gs| - 1 ==> gs[i].Full?
  }

  lemma ReadGroupText(g: Group)
    ensures var t := GroupText(g); |t| == 4 && ReadGroup(t[0], t[1], t[2], t[3]) == Some(g)
  {
    LetterValue(g.v0);
    LetterValue(g.v1);
    if !g.OneByte? {
      LetterValue(g.v2);
    }
    if g.Full? {
      LetterValue(g.v3);
    }
  }

  lemma {:induction false} ReadText(gs: seq<Group>)
    requires PaddedAtEnd(gs)
    ensures ReadGroups(Text(gs)) == Some(gs)
  {
    if gs != [] {
      ReadText(gs[1..]);
      ReadGroupText(gs[0]);
      TextHasNoBreak(gs[1..]);
      assert Text(gs)[4..] == Text(gs[1..]);
      assert gs == [gs[0]] + gs[1..];
    }
  }

  lemma BytesOfFull(b0: Byte, b1: Byte, b2: Byte)
    ensures GroupBytes(FullGroup(b0, b1, b2)) == [b0, b1, b2]
  {
  }

  lemma BytesOfShort(b: seq<Byte>)
    requires |b| < 3
    ensures Bytes(Groups(b)) == b && |Groups(b)| == (if b == [] then 0 else 1)
  {
    if |b| == 2 {
      assert Groups(b)[1..] == [] && GroupBytes(Groups(b)[0]) == [b[0], b[1]] == b;
    } else if |b| == 1 {
      assert Groups(b)[1..] == [] && GroupBytes(Groups(b)[0]) == [b[0]] == b;
    }
  }

  lemma {:induction false} BytesOfGroups(b: seq<Byte>)
    ensures Bytes(Groups(b)) == b && PaddedAtEnd(Groups(b))
    ensures Groups(b) == [] <==> b == []
  {
    if |b| < 3 {
      BytesOfShort(b);
    } else {
      BytesOfGroups(b[3..]);
      var first := FullGroup(b[0], b[1], b[2]);
      BytesOfFull(b[0], b[1], b[2]);
      assert Groups(b) == [first] + Groups(b[3..]) && Groups(b)[1..] == Groups(b[3..]);
      assert b == [b[0], b[1], b[2]] + b[3..];
    }
  }

  /** Every byte string is read back from its encoding. */
  lemma DecodeEncode(b: seq<Byte>)
    ensures Decode(Encode(b)) == Some(b)
  {
    EncodeHasNoBreak(b);
    UnbrokenUnchanged(Encode(b));
    BytesOfGroups(b);
    ReadText(Groups(b));
  }
}
