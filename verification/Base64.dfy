/** The unpadded base64 encoding with the URL-safe alphabet (section 5 of RFC 4648), as Go's RawURLEncoding does it. */
module Base64 {
  import opened Wrappers
  import Text

  /** Two bits.  Bytes are four of them and letters stand for three, so encoding only regroups them. */
  type Pair = n: int | 0 <= n < 4

  /** The byte 64 * p3 + 16 * p2 + 4 * p1 + p0. */
  datatype Byte = Byte(p3: Pair, p2: Pair, p1: Pair, p0: Pair)

  datatype Sextet = Sextet(q2: Pair, q1: Pair, q0: Pair)

  function ValueOf(v: Sextet): (n: nat)
    ensures n < 64
  {
    16 * v.q2 + 4 * v.q1 + v.q0
  }

  function SextetOf(n: nat): (v: Sextet)
    requires n < 64
    ensures ValueOf(v) == n
  {
    assert n / 4 / 4 == n / 16;
    Sextet(n / 16, n / 4 % 4, n % 4)
  }

  lemma SextetOfValue(v: Sextet)
    ensures SextetOf(ValueOf(v)) == v
  {
  }

  // ---- the alphabet ----

  /** The letter of a value, in the order of the alphabet. */
  function LetterOf(n: nat): char
    requires n < 64
  {
    if n < 26 then ('A' as int + n) as char
    else if n < 52 then ('a' as int + n - 26) as char
    else if n < 62 then ('0' as int + n - 52) as char
    else if n == 62 then '-'
    else '_'
  }

  function PlaceOf(c: char): (n: Option<nat>)
    ensures n.Some? ==> n.value < 64
  {
    if 'A' <= c <= 'Z' then Some(c as int - 'A' as int)
    else if 'a' <= c <= 'z' then Some(c as int - 'a' as int + 26)
    else if '0' <= c <= '9' then Some(c as int - '0' as int + 52)
    else if c == '-' then Some(62)
    else if c == '_' then Some(63)
    else None
  }

  lemma PlaceOfLetter(n: nat)
    requires n < 64
    ensures PlaceOf(LetterOf(n)) == Some(n)
  {
  }

  lemma LetterOfPlace(c: char)
    requires PlaceOf(c).Some?
    ensures LetterOf(PlaceOf(c).value) == c
  {
  }

  function Letter(v: Sextet): char { LetterOf(ValueOf(v)) }

  function Index(c: char): Option<Sextet> {
    match PlaceOf(c)
    case None => None
    case Some(n) => Some(SextetOf(n))
  }

  predicate InAlphabet(c: char) { Index(c).Some? }

  lemma IndexOfLetter(v: Sextet)
    ensures Index(Letter(v)) == Some(v)
  {
    PlaceOfLetter(ValueOf(v));
    SextetOfValue(v);
  }

  lemma LetterOfIndex(c: char)
    requires InAlphabet(c)
    ensures Letter(Index(c).value) == c
  {
    LetterOfPlace(c);
  }

  /** No letter separates the parts of a token or a path, and none is blank. */
  lemma AlphabetAvoids(c: char)
    requires InAlphabet(c)
    ensures c != '.' && c != '/' && !Text.IsSpace(c)
  {
  }

  // ---- bytes and groups of six bits ----

  /** Three bytes make four sextets; fewer are filled up with zero bits. */
  function Sextets(b: seq<Byte>): seq<Sextet> {
    if |b| == 0 then []
    else if |b| == 1 then [Sextet(b[0].p3, b[0].p2, b[0].p1), Sextet(b[0].p0, 0, 0)]
    else if |b| == 2 then
      [Sextet(b[0].p3, b[0].p2, b[0].p1), Sextet(b[0].p0, b[1].p3, b[1].p2), Sextet(b[1].p1, b[1].p0, 0)]
    else Group(b[0], b[1], b[2]) + Sextets(b[3..])
  }

  function Group(a: Byte, b: Byte, c: Byte): seq<Sextet> {
    [Sextet(a.p3, a.p2, a.p1), Sextet(a.p0, b.p3, b.p2), Sextet(b.p1, b.p0, c.p3), Sextet(c.p2, c.p1, c.p0)]
  }

  /** The decoder does not look at the bits left over in a last, incomplete group. */
  function Bytes(v: seq<Sextet>): Option<seq<Byte>> {
    if |v| == 0 then Some([])
    else if |v| == 1 then None
    else if |v| == 2 then Some([FirstByte(v[0], v[1])])
    else if |v| == 3 then Some([FirstByte(v[0], v[1]), SecondByte(v[1], v[2])])
    else match Bytes(v[4..])
      case None => None
      case Some(rest) => Some([FirstByte(v[0], v[1]), SecondByte(v[1], v[2]), ThirdByte(v[2], v[3])] + rest)
  }

  function FirstByte(w: Sextet, x: Sextet): Byte { Byte(w.q2, w.q1, w.q0, x.q2) }
  function SecondByte(x: Sextet, y: Sextet): Byte { Byte(x.q1, x.q0, y.q2, y.q1) }
  function ThirdByte(y: Sextet, z: Sextet): Byte { Byte(y.q0, z.q2, z.q1, z.q0) }

  lemma {:induction false} BytesOfSextets(b: seq<Byte>)
    ensures Bytes(Sextets(b)) == Some(b)
  {
    if |b| >= 3 {
      BytesOfSextets(b[3..]);
      assert b == [b[0], b[1], b[2]] + b[3..];
      assert Sextets(b)[4..] == Sextets(b[3..]);
    } else if |b| == 2 {
      assert b == [b[0], b[1]];
    } else if |b| == 1 {
      assert b == [b[0]];
    }
  }

  /** As many groups of six bits, the same up to the last one, and that one too if no bits are left over. */
  predicate SameButLast(w: seq<Sextet>, v: seq<Sextet>) {
    |w| == |v| && (v != [] ==> w[..|w| - 1] == v[..|v| - 1]) && (|v| % 4 == 0 ==> w == v)
  }

  /** A decoded text is the encoding of its bytes up to the bits left over. */
  lemma {:induction false} SextetsOfBytes(v: seq<Sextet>)
    requires Bytes(v).Some?
    ensures SameButLast(Sextets(Bytes(v).value), v)
  {
    if |v| >= 4 {
      SextetsOfBytes(v[4..]);
      GroupInFront(v[..4], Sextets(Bytes(v[4..]).value), v[4..]);
      SextetsOfFirstGroup(v);
      assert v == v[..4] + v[4..];
    }
  }

  lemma SextetsOfFirstGroup(v: seq<Sextet>)
    requires |v| >= 4 && Bytes(v[4..]).Some?
    ensures Bytes(v).Some? && Sextets(Bytes(v).value) == v[..4] + Sextets(Bytes(v[4..]).value)
  {
    var a, b, c := FirstByte(v[0], v[1]), SecondByte(v[1], v[2]), ThirdByte(v[2], v[3]);
    var rest := Bytes(v[4..]).value;
    assert Bytes(v) == Some([a, b, c] + rest);
    SextetsUnrolled(a, b, c, rest);
    assert v[..4] == Group(a, b, c);
  }

  lemma SextetsUnrolled(a: Byte, b: Byte, c: Byte, rest: seq<Byte>)
    ensures Sextets([a, b, c] + rest) == Group(a, b, c) + Sextets(rest)
  {
    assert ([a, b, c] + rest)[3..] == rest;
  }

  lemma GroupInFront(group: seq<Sextet>, w: seq<Sextet>, v: seq<Sextet>)
    requires |group| == 4 && SameButLast(w, v)
    ensures SameButLast(group + w, group + v)
  {
    if v == [] {
      assert w == v;
    } else {
      assert (group + w)[..|group + w| - 1] == group + w[..|w| - 1];
      assert (group + v)[..|group + v| - 1] == group + v[..|v| - 1];
    }
  }

  // ---- text ----

  function Letters(v: seq<Sextet>): (s: string)
    ensures forall i :: 0 <= i < |s| ==> InAlphabet(s[i])
  {
    if v == [] then ""
    else
      IndexOfLetter(v[0]);
      [Letter(v[0])] + Letters(v[1..])
  }

  function Indices(s: string): Option<seq<Sextet>> {
    if s == "" then Some([])
    else match (Index(s[0]), Indices(s[1..]))
      case (Some(v), Some(rest)) => Some([v] + rest)
      case _ => None
  }

  /** The decoder passes over line ends. */
  function WithoutLineEnds(s: string): string {
    if s == "" then ""
    else (if s[0] == '\r' || s[0] == '\n' then "" else [s[0]]) + WithoutLineEnds(s[1..])
  }

  function Encode(b: seq<Byte>): (s: string)
    ensures forall i :: 0 <= i < |s| ==> InAlphabet(s[i])
  {
    Letters(Sextets(b))
  }

  function Decode(s: string): Option<seq<Byte>> {
    match Indices(WithoutLineEnds(s))
    case None => None
    case Some(v) => Bytes(v)
  }

  lemma {:induction false} IndicesOfLetters(v: seq<Sextet>)
    ensures Indices(Letters(v)) == Some(v)
  {
    if v != [] {
      IndexOfLetter(v[0]);
      IndicesOfLetters(v[1..]);
      assert Letters(v)[1..] == Letters(v[1..]) && v == [v[0]] + v[1..];
    }
  }

  lemma {:induction false} AlphabetHasNoLineEnds(s: string)
    requires forall i :: 0 <= i < |s| ==> InAlphabet(s[i])
    ensures WithoutLineEnds(s) == s
  {
    if s != "" {
      AlphabetHasNoLineEnds(s[1..]);
    }
  }

  lemma EncodeDecode(b: seq<Byte>)
    ensures Decode(Encode(b)) == Some(b)
  {
    AlphabetHasNoLineEnds(Encode(b));
    IndicesOfLetters(Sextets(b));
    BytesOfSextets(b);
  }

  lemma {:induction false} LettersOfIndices(s: string)
    requires Indices(s).Some?
    ensures |Indices(s).value| == |s| && Letters(Indices(s).value) == s
  {
    if s != "" {
      LettersOfIndices(s[1..]);
      LetterOfIndex(s[0]);
      var v, rest := Index(s[0]).value, Indices(s[1..]).value;
      assert Indices(s) == Some([v] + rest) && ([v] + rest)[1..] == rest;
      assert s == [s[0]] + s[1..];
    }
  }

  /** Encoding what was decoded gives the text back, without its line ends, when its length is a multiple of four; else all but the last letter. */
  lemma DecodeEncode(s: string)
    requires Decode(s).Some?
    ensures var t := WithoutLineEnds(s); var back := Encode(Decode(s).value);
            |back| == |t| && (|t| % 4 == 0 ==> back == t)
  {
    var t := WithoutLineEnds(s);
    LettersOfIndices(t);
    SextetsOfBytes(Indices(t).value);
    IndicesOfLetters(Sextets(Decode(s).value));
    LettersOfIndices(Encode(Decode(s).value));
  }

  lemma EncodeEmpty(b: seq<Byte>)
    ensures Encode(b) == "" <==> b == []
  {
    EncodeDecode(b);
  }
}
