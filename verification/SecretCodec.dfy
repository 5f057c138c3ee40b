/** The base64url secrets of section 5 of RFC 4648: the strict decoder of the signer (`signer.rs`), its decode
    cache, and the canonical form the configuration store writes (`config.ts`). */
module SecretCodec {
  import opened Common

  type Sextet = v: int | 0 <= v < 64

  // ---- bytes and sextets ----

  /** The four six-bit groups of three bytes. */
  function Group(x: Byte, y: Byte, z: Byte): (g: seq<Sextet>)
    ensures |g| == 4
  {
    [x / 4, x % 4 * 16 + y / 16, y % 16 * 4 + z / 64, z % 64]
  }

  /** The three bytes of four six-bit groups. */
  function Triple(p: Sextet, q: Sextet, r: Sextet, s: Sextet): (t: seq<Byte>)
    ensures |t| == 3
  {
    var t: seq<Byte> := [p * 4 + q / 16, q % 16 * 16 + r / 4, r % 4 * 64 + s];
    t
  }

  /** The six-bit groups of the bytes, the last one filled up with zero bits. */
  function Sextets(b: seq<Byte>): seq<Sextet> {
    if b == [] then []
    else if |b| == 1 then Group(b[0], 0, 0)[..2]
    else if |b| == 2 then Group(b[0], b[1], 0)[..3]
    else Group(b[0], b[1], b[2]) + Sextets(b[3..])
  }

  /** The whole bytes in a list of six-bit groups; bits beyond the last byte are dropped. */
  function Bytes(d: seq<Sextet>): seq<Byte> {
    if |d| < 2 then []
    else if |d| == 2 then Triple(d[0], d[1], 0, 0)[..1]
    else if |d| == 3 then Triple(d[0], d[1], d[2], 0)[..2]
    else Triple(d[0], d[1], d[2], d[3]) + Bytes(d[4..])
  }

  /** The dropped bits are all zero, and no group stands alone. */
  predicate NoStrayBits(d: seq<Sextet>) {
    && |d| % 4 != 1
    && (|d| % 4 == 2 ==> d[|d| - 1] % 16 == 0)
    && (|d| % 4 == 3 ==> d[|d| - 1] % 4 == 0)
  }

  // ---- symbols ----

  function Symbol(v: Sextet): char {
    if v < 26 then 'A' + v as char
    else if v < 52 then 'a' + (v - 26) as char
    else if v < 62 then '0' + (v - 52) as char
    else if v == 62 then '-' else '_'
  }

  predicate IsSymbol(c: char) {
    'A' <= c <= 'Z' || 'a' <= c <= 'z' || '0' <= c <= '9' || c == '-' || c == '_'
  }

  function ValueOf(c: char): (v: Sextet)
    requires IsSymbol(c)
    ensures Symbol(v) == c
  {
    if 'A' <= c <= 'Z' then c as int - 'A' as int
    else if 'a' <= c <= 'z' then c as int - 'a' as int + 26
    else if '0' <= c <= '9' then c as int - '0' as int + 52
    else if c == '-' then 62 else 63
  }

  predicate AllSymbols(s: string) {
    forall i :: 0 <= i < |s| ==> IsSymbol(s[i])
  }

  function Values(s: string): (d: seq<Sextet>)
    requires AllSymbols(s)
    ensures |d| == |s|
  {
    seq(|s|, i requires 0 <= i < |s| => ValueOf(s[i]))
  }

  function Symbols(d: seq<Sextet>): (s: string)
    ensures |s| == |d|
  {
    seq(|d|, i requires 0 <= i < |d| => Symbol(d[i]))
  }

  predicate IsPad(c: char) {
    c == '='
  }

  ghost predicate All(s: string, space: char -> bool) {
    forall i :: 0 <= i < |s| ==> space(s[i])
  }

  function Padding(n: nat): (s: string)
    ensures All(s, IsPad)
  {
    if n % 4 == 2 then "==" else if n % 4 == 3 then "=" else ""
  }

  function Pads(n: nat): (s: string)
    ensures |s| == n && All(s, IsPad)
  {
    seq(n, _ => '=')
  }

  // ---- codecs ----

  /** The canonical encoding without padding. */
  function Body(b: seq<Byte>): string {
    Symbols(Sextets(b))
  }

  /** The canonical encoding. */
  function Encode(b: seq<Byte>): string {
    Body(b) + Padding(|Body(b)|)
  }

  function TrimEnd(s: string, space: char -> bool): string {
    if s != "" && space(s[|s| - 1]) then TrimEnd(s[..|s| - 1], space) else s
  }

  /** The strict decoder of the signer: whole quads, canonical padding, no stray bits. */
  function StrictDecode(s: string): Option<seq<Byte>> {
    var body := TrimEnd(s, IsPad);
    if |s| % 4 == 0 && |s| - |body| <= 2 && AllSymbols(body) && NoStrayBits(Values(body))
    then Some(Bytes(Values(body))) else None
  }

  function OrMalformed(decoded: Option<seq<Byte>>): Result<seq<Byte>> {
    if decoded.Some? then Ok(decoded.value) else Err("malformed")
  }

  function Utf8Width(c: char): nat {
    if c < '\U{80}' then 1 else if c < '\U{800}' then 2 else if c < '\U{10000}' then 3 else 4
  }

  /** The bits that each length of UTF-8 has room for (section 3 of RFC 3629). */
  lemma Utf8WidthIsLeast(c: char)
    ensures
      var code := c as int;
      match Utf8Width(c)
      case 1 => code < 0x80
      case 2 => 0x80 <= code < 0x20 * 0x40
      case 3 => 0x20 * 0x40 <= code < 0x10 * 0x40 * 0x40
      case 4 => 0x10 * 0x40 * 0x40 <= code
      case _ => false
  {
  }

  function ByteLength(s: string): nat {
    if s == "" then 0 else ByteLength(s[1..]) + Utf8Width(s[0])
  }

  /** `decode_clob_api_secret` after its trim. Only the length test looks at the width of a character: text with
      characters beyond ASCII is refused one way or the other. */
  function DecodeTrimmed(trimmed: string): Result<seq<Byte>> {
    if trimmed == "" then Err("empty")
    else
      var remainder := ByteLength(trimmed) % 4;
      if remainder == 1 then Err("length")
      else OrMalformed(StrictDecode(trimmed + Pads((4 - remainder) % 4)))
  }

  predicate WideSpace(c: char) {
    c == '\U{a0}' || c == '\U{1680}' || '\U{2000}' <= c <= '\U{200a}' || c == '\U{2028}' || c == '\U{2029}'
    || c == '\U{202f}' || c == '\U{205f}' || c == '\U{3000}'
  }

  /** Rust's white space: Unicode White_Space. */
  predicate RustSpace(c: char) {
    '\U{9}' <= c <= '\U{d}' || c == ' ' || c == '\U{85}' || WideSpace(c)
  }

  function TrimStart(s: string, space: char -> bool): string {
    if s != "" && space(s[0]) then TrimStart(s[1..], space) else s
  }

  function Trim(s: string, space: char -> bool): string {
    TrimEnd(TrimStart(s, space), space)
  }

  function Decode(raw: string): Result<seq<Byte>> {
    DecodeTrimmed(Trim(raw, RustSpace))
  }

  /** JavaScript's white space: the byte order mark, but not the next-line character. */
  predicate JsSpace(c: char) {
    '\U{9}' <= c <= '\U{d}' || c == ' ' || c == '\U{feff}' || WideSpace(c)
  }

  /** The 25 characters with the property White_Space; JavaScript has one more and one less. */
  lemma SpacesAre(c: char)
    ensures RustSpace(c) <==>
      c in ['\U{9}', '\U{a}', '\U{b}', '\U{c}', '\U{d}', '\U{20}', '\U{85}', '\U{a0}', '\U{1680}', '\U{2000}',
            '\U{2001}', '\U{2002}', '\U{2003}', '\U{2004}', '\U{2005}', '\U{2006}', '\U{2007}', '\U{2008}',
            '\U{2009}', '\U{200a}', '\U{2028}', '\U{2029}', '\U{202f}', '\U{205f}', '\U{3000}']
    ensures JsSpace(c) <==> c == '\U{feff}' || (RustSpace(c) && c != '\U{85}')
  {
  }

  /** `normalizeBase64UrlSecretForStorage`. */
  function Normalize(value: string): string {
    var trimmed := Trim(value, JsSpace);
    var unpadded := TrimEnd(trimmed, IsPad);
    if unpadded == "" then ""
    else if |unpadded| % 4 == 1 || !AllSymbols(unpadded) then trimmed
    else
      var canonical := Encode(Bytes(Values(unpadded)));
      if TrimEnd(canonical, IsPad) != unpadded then trimmed else canonical
  }

  // ---- trimming ----

  /** Neither end can be trimmed. */
  ghost predicate Tight(s: string, space: char -> bool) {
    s != "" ==> !space(s[0]) && !space(s[|s| - 1])
  }

  lemma {:induction false} TrimStartSplits(s: string, space: char -> bool) returns (cut: string)
    ensures s == cut + TrimStart(s, space) && All(cut, space)
    ensures TrimStart(s, space) != "" ==> !space(TrimStart(s, space)[0])
  {
    cut := "";
    if s != "" && space(s[0]) {
      var more := TrimStartSplits(s[1..], space);
      cut := [s[0]] + more;
      assert s == [s[0]] + s[1..];
    }
  }

  lemma {:induction false} TrimEndSplits(s: string, space: char -> bool) returns (cut: string)
    ensures s == TrimEnd(s, space) + cut && All(cut, space)
    ensures TrimEnd(s, space) != "" ==> !space(TrimEnd(s, space)[|TrimEnd(s, space)| - 1])
  {
    cut := "";
    if s != "" && space(s[|s| - 1]) {
      var more := TrimEndSplits(s[..|s| - 1], space);
      cut := more + [s[|s| - 1]];
      assert s == s[..|s| - 1] + [s[|s| - 1]];
    }
  }

  lemma {:induction false} TrimStartStops(cut: string, rest: string, space: char -> bool)
    requires rest != "" && !space(rest[0])
    ensures TrimStart(cut + rest, space) == TrimStart(cut, space) + rest
  {
    if cut != "" && space(cut[0]) {
      assert (cut + rest)[1..] == cut[1..] + rest;
      TrimStartStops(cut[1..], rest, space);
    }
  }

  lemma {:induction false} TrimEndStops(rest: string, cut: string, space: char -> bool)
    requires rest != "" && !space(rest[|rest| - 1])
    ensures TrimEnd(rest + cut, space) == rest + TrimEnd(cut, space)
  {
    if cut != "" && space(cut[|cut| - 1]) {
      assert (rest + cut)[..|rest + cut| - 1] == rest + cut[..|cut| - 1];
      TrimEndStops(rest, cut[..|cut| - 1], space);
    } else {
      assert rest + "" == rest;
    }
  }

  lemma {:induction false} TrimAll(s: string, space: char -> bool)
    requires All(s, space)
    ensures TrimStart(s, space) == "" == TrimEnd(s, space)
    decreases |s|
  {
    if s != "" {
      TrimAll(s[1..], space);
      TrimAll(s[..|s| - 1], space);
    }
  }

  lemma TrimSplits(s: string, space: char -> bool) returns (left: string, right: string)
    ensures s == left + Trim(s, space) + right && All(left, space) && All(right, space)
    ensures Tight(Trim(s, space), space)
  {
    left := TrimStartSplits(s, space);
    right := TrimEndSplits(TrimStart(s, space), space);
    assert s == left + (Trim(s, space) + right);
    assert Trim(s, space) != "" ==> Trim(s, space)[0] == TrimStart(s, space)[0];
  }

  /** Trimming strips the two ends separately when something between them stays. */
  lemma TrimEnds(left: string, core: string, right: string, space: char -> bool)
    requires core != "" && Tight(core, space)
    ensures Trim(left + core + right, space) == TrimStart(left, space) + core + TrimEnd(right, space)
  {
    assert left + core + right == left + (core + right);
    TrimStartStops(left, core + right, space);
    var rest := TrimStart(left, space) + core;
    assert TrimStart(left, space) + (core + right) == rest + right;
    TrimEndStops(rest, right, space);
  }

  lemma TrimTight(s: string, space: char -> bool)
    requires Tight(s, space)
    ensures Trim(s, space) == s
  {
  }

  lemma TrimIdempotent(s: string, space: char -> bool)
    ensures Trim(Trim(s, space), space) == Trim(s, space)
  {
    var left, right := TrimSplits(s, space);
    TrimTight(Trim(s, space), space);
  }

  // ---- encoding laws ----

  lemma SplitAt4(hi: nat, lo: nat)
    requires lo < 4
    ensures (hi * 4 + lo) / 4 == hi && (hi * 4 + lo) % 4 == lo
  {
  }

  lemma SplitAt16(hi: nat, lo: nat)
    requires lo < 16
    ensures (hi * 16 + lo) / 16 == hi && (hi * 16 + lo) % 16 == lo
  {
  }

  lemma SplitAt64(hi: nat, lo: nat)
    requires lo < 64
    ensures (hi * 64 + lo) / 64 == hi && (hi * 64 + lo) % 64 == lo
  {
  }

  lemma Rejoins4(v: nat)
    ensures v / 4 * 4 + v % 4 == v
  {
  }

  lemma Rejoins16(v: nat)
    ensures v / 16 * 16 + v % 16 == v
  {
  }

  lemma Rejoins64(v: nat)
    ensures v / 64 * 64 + v % 64 == v
  {
  }

  lemma GroupBytes(x: Byte, y: Byte, z: Byte)
    ensures var g := Group(x, y, z); Triple(g[0], g[1], g[2], g[3]) == [x, y, z]
    ensures y == 0 ==> Group(x, y, z)[1] % 16 == 0
    ensures z == 0 ==> Group(x, y, z)[2] % 4 == 0
  {
    var q, r := x % 4 * 16 + y / 16, y % 16 * 4 + z / 64;
    SplitAt16(x % 4, y / 16);
    SplitAt4(y % 16, z / 64);
    assert x / 4 * 4 + q / 16 == x by { Rejoins4(x); }
    assert q % 16 * 16 + r / 4 == y by { Rejoins16(y); }
    assert r % 4 * 64 + z % 64 == z by { Rejoins64(z); }
  }

  lemma GroupSextets(p: Sextet, q: Sextet, r: Sextet, s: Sextet)
    ensures var t := Triple(p, q, r, s); Group(t[0], t[1], t[2]) == [p, q, r, s]
  {
    var x, y, z := p * 4 + q / 16, q % 16 * 16 + r / 4, r % 4 * 64 + s;
    assert x / 4 == p && x % 4 == q / 16 by { SplitAt4(p, q / 16); }
    assert y / 16 == q % 16 && y % 16 == r / 4 by { SplitAt16(q % 16, r / 4); }
    assert z / 64 == r % 4 && z % 64 == s by { SplitAt64(r % 4, s); }
    assert x % 4 * 16 + y / 16 == q by { Rejoins16(q); }
    assert y % 16 * 4 + z / 64 == r by { Rejoins4(r); }
    assert Triple(p, q, r, s) == [x, y, z];
  }

  /** The last bytes of a group are not seen through its first groups, and the other way round. */
  lemma ShortTriple(p: Sextet, q: Sextet, r: Sextet)
    ensures q % 16 == 0 ==> Triple(p, q, 0, 0) == [Triple(p, q, 0, 0)[0], 0, 0]
    ensures r % 4 == 0 ==> Triple(p, q, r, 0) == [Triple(p, q, r, 0)[0], Triple(p, q, r, 0)[1], 0]
    ensures Triple(p, q, r, 0)[0] == Triple(p, q, 0, 0)[0]
  {
  }

  lemma OneByte(x: Byte)
    ensures Sextets([x]) == Group(x, 0, 0)[..2] && Bytes(Sextets([x])) == [x] && NoStrayBits(Sextets([x]))
  {
  }

  lemma TwoBytes(x: Byte, y: Byte)
    ensures Sextets([x, y]) == Group(x, y, 0)[..3] && Bytes(Sextets([x, y])) == [x, y]
    ensures NoStrayBits(Sextets([x, y]))
  {
    GroupBytes(x, y, 0);
    var g := Group(x, y, 0);
    assert g[3] == 0;
  }

  lemma ThreeBytes(x: Byte, y: Byte, z: Byte, d: seq<Sextet>)
    ensures Bytes(Group(x, y, z) + d) == [x, y, z] + Bytes(d)
  {
    GroupBytes(x, y, z);
    assert (Group(x, y, z) + d)[4..] == d;
  }

  lemma StrayBitsAreLast(g: seq<Sextet>, d: seq<Sextet>)
    requires |g| == 4 && NoStrayBits(d)
    ensures NoStrayBits(g + d)
  {
  }

  lemma {:induction false} BytesOfSextets(b: seq<Byte>)
    ensures Bytes(Sextets(b)) == b && NoStrayBits(Sextets(b)) && (b != [] ==> Sextets(b) != [])
  {
    if |b| == 1 {
      OneByte(b[0]);
      assert b == [b[0]];
    } else if |b| == 2 {
      TwoBytes(b[0], b[1]);
      assert b == [b[0], b[1]];
    } else if |b| > 2 {
      BytesOfSextets(b[3..]);
      ThreeBytes(b[0], b[1], b[2], Sextets(b[3..]));
      StrayBitsAreLast(Group(b[0], b[1], b[2]), Sextets(b[3..]));
      assert b == [b[0], b[1], b[2]] + b[3..];
    }
  }

  lemma TwoSextets(p: Sextet, q: Sextet)
    requires q % 16 == 0
    ensures Sextets(Bytes([p, q])) == [p, q]
  {
    var t := Triple(p, q, 0, 0);
    GroupSextets(p, q, 0, 0);
    ShortTriple(p, q, 0);
    assert Bytes([p, q]) == [t[0]];
    assert Group(t[0], 0, 0) == [p, q, 0, 0];
  }

  lemma ThreeSextets(p: Sextet, q: Sextet, r: Sextet)
    requires r % 4 == 0
    ensures Sextets(Bytes([p, q, r])) == [p, q, r]
  {
    var t := Triple(p, q, r, 0);
    GroupSextets(p, q, r, 0);
    ShortTriple(p, q, r);
    assert Bytes([p, q, r]) == [t[0], t[1]];
    assert Group(t[0], t[1], 0) == [p, q, r, 0];
  }

  lemma FourSextets(p: Sextet, q: Sextet, r: Sextet, s: Sextet, b: seq<Byte>)
    ensures Sextets(Triple(p, q, r, s) + b) == [p, q, r, s] + Sextets(b)
  {
    GroupSextets(p, q, r, s);
    assert (Triple(p, q, r, s) + b)[3..] == b;
  }

  lemma {:induction false} SextetsOfBytes(d: seq<Sextet>)
    requires NoStrayBits(d)
    ensures Sextets(Bytes(d)) == d
  {
    if |d| == 2 {
      TwoSextets(d[0], d[1]);
      assert d == [d[0], d[1]];
    } else if |d| == 3 {
      ThreeSextets(d[0], d[1], d[2]);
      assert d == [d[0], d[1], d[2]];
    } else if |d| > 3 {
      SextetsOfBytes(d[4..]);
      FourSextets(d[0], d[1], d[2], d[3], Bytes(d[4..]));
      assert d == [d[0], d[1], d[2], d[3]] + d[4..];
    }
  }

  lemma SymbolsValues(d: seq<Sextet>)
    ensures AllSymbols(Symbols(d)) && Values(Symbols(d)) == d
  {
  }

  lemma ValuesSymbols(s: string)
    requires AllSymbols(s)
    ensures Symbols(Values(s)) == s
  {
  }

  lemma BodyOf(b: seq<Byte>)
    ensures AllSymbols(Body(b)) && Bytes(Values(Body(b))) == b && NoStrayBits(Values(Body(b)))
    ensures b != [] ==> Body(b) != ""
  {
    BytesOfSextets(b);
    SymbolsValues(Sextets(b));
  }

  /** A text of symbols is a canonical body exactly when it has no stray bits. */
  lemma BodyIff(s: string)
    requires AllSymbols(s)
    ensures NoStrayBits(Values(s)) <==> s == Body(Bytes(Values(s)))
  {
    if NoStrayBits(Values(s)) {
      SextetsOfBytes(Values(s));
      ValuesSymbols(s);
    }
    BodyOf(Bytes(Values(s)));
  }

  lemma StripsPads(body: string, pads: string)
    requires AllSymbols(body) && All(pads, IsPad)
    ensures TrimEnd(body + pads, IsPad) == body
  {
    if body == "" {
      assert body + pads == pads;
      TrimAll(pads, IsPad);
    } else {
      assert !IsPad(body[|body| - 1]);
      TrimEndStops(body, pads, IsPad);
      TrimAll(pads, IsPad);
    }
  }

  lemma PaddingFills(n: nat)
    requires n % 4 != 1
    ensures (n + |Padding(n)|) % 4 == 0 && |Padding(n)| <= 2
  {
  }

  lemma StrictOnBody(body: string)
    requires AllSymbols(body) && NoStrayBits(Values(body))
    ensures StrictDecode(body + Padding(|body|)) == Some(Bytes(Values(body)))
  {
    StripsPads(body, Padding(|body|));
    PaddingFills(|body|);
  }

  lemma StrictShape(s: string)
    requires StrictDecode(s).Some?
    ensures var body := TrimEnd(s, IsPad); s == body + Padding(|body|)
  {
    var body := TrimEnd(s, IsPad);
    var pads := TrimEndSplits(s, IsPad);
    PaddingFills(|body|);
    assert |pads| == |Padding(|body|)|;
    assert pads == Padding(|body|);
  }

  /** The strict decoder accepts exactly the canonical encodings. */
  lemma StrictIff(s: string, b: seq<Byte>)
    ensures StrictDecode(s) == Some(b) <==> s == Encode(b)
  {
    BodyOf(b);
    StrictOnBody(Body(b));
    if StrictDecode(s) == Some(b) {
      StrictShape(s);
      BodyIff(TrimEnd(s, IsPad));
    }
  }

  // ---- what the signer accepts ----

  ghost predicate Ascii(s: string) {
    forall i :: 0 <= i < |s| ==> IsSymbol(s[i]) || IsPad(s[i])
  }

  lemma {:induction false} AsciiLength(s: string)
    requires Ascii(s)
    ensures ByteLength(s) == |s|
  {
    if s != "" { AsciiLength(s[1..]); }
  }

  /** The canonical encoding of some bytes, with all, some or none of its padding. */
  ghost predicate Spells(t: string, b: seq<Byte>) {
    b != [] && |Body(b)| <= |t| <= |Encode(b)| && t == Encode(b)[..|t|]
  }

  lemma SpellingIsAscii(t: string, b: seq<Byte>)
    requires Spells(t, b)
    ensures Ascii(t) && t != "" && TrimEnd(t, IsPad) == Body(b)
  {
    BodyOf(b);
    var pads := Padding(|Body(b)|)[..|t| - |Body(b)|];
    assert t == Body(b) + pads;
    StripsPads(Body(b), pads);
  }

  lemma PrefixFills(t: string, body: string)
    requires var e := body + Padding(|body|); |body| % 4 != 1 && |body| <= |t| <= |e| && t == e[..|t|]
    ensures |t| % 4 != 1 && t + Pads((4 - |t| % 4) % 4) == body + Padding(|body|)
  {
  }

  lemma PaddedIsSpelling(t: string, b: seq<Byte>, m: nat)
    requires t != "" && t + Pads(m) == Encode(b)
    ensures Spells(t, b) && Ascii(t)
  {
    BodyOf(b);
    var e := Encode(b);
    assert t == e[..|t|];
    assert b != [] by { assert Body([]) == ""; }
    var last := |Body(b)| - 1;
    assert IsSymbol(e[last]);
    assert last < |t| by {
      assert forall i :: |t| <= i < |e| ==> e[i] == Pads(m)[i - |t|];
    }
    SpellingIsAscii(t, b);
  }

  lemma DecodesPadded(t: string, padded: string, b: seq<Byte>)
    requires t != "" && Ascii(t) && |t| % 4 != 1 && padded == t + Pads((4 - |t| % 4) % 4)
    requires StrictDecode(padded) == Some(b)
    ensures DecodeTrimmed(t) == Ok(b)
  {
    AsciiLength(t);
    assert DecodeTrimmed(t) == OrMalformed(StrictDecode(padded));
  }

  lemma SpellingIsAccepted(t: string, b: seq<Byte>)
    requires Spells(t, b)
    ensures DecodeTrimmed(t) == Ok(b)
  {
    var body := Body(b);
    SpellingIsAscii(t, b);
    BodyOf(b);
    PrefixFills(t, body);
    StrictIff(Encode(b), b);
    DecodesPadded(t, body + Padding(|body|), b);
  }

  lemma AcceptedIsSpelling(t: string, b: seq<Byte>)
    requires DecodeTrimmed(t) == Ok(b)
    ensures Spells(t, b)
  {
    var m := (4 - ByteLength(t) % 4) % 4;
    StrictIff(t + Pads(m), b);
    PaddedIsSpelling(t, b, m);
  }

  /** The signer decodes a secret to `b` exactly when, trimmed, it spells `b`. */
  lemma DecodeIff(raw: string, b: seq<Byte>)
    ensures Decode(raw) == Ok(b) <==> Spells(Trim(raw, RustSpace), b)
  {
    var t := Trim(raw, RustSpace);
    if Spells(t, b) {
      SpellingIsAccepted(t, b);
    } else if DecodeTrimmed(t) == Ok(b) {
      AcceptedIsSpelling(t, b);
    }
  }

  // ---- the stored form ----

  lemma AsciiIsTight(s: string)
    requires Ascii(s)
    ensures Tight(s, RustSpace) && Tight(s, JsSpace) && Trim(s, RustSpace) == s == Trim(s, JsSpace)
  {
  }

  lemma EncodeSpells(b: seq<Byte>)
    requires b != []
    ensures Spells(Encode(b), b) && Decode(Encode(b)) == Ok(b)
    ensures Trim(Encode(b), JsSpace) == Encode(b) && TrimEnd(Encode(b), IsPad) == Body(b)
  {
    var e := Encode(b);
    assert e == e[..|e|];
    SpellingIsAscii(e, b);
    AsciiIsTight(e);
    DecodeIff(e, b);
  }

  lemma BodyInjective(b: seq<Byte>, c: seq<Byte>)
    ensures Body(b) == Body(c) ==> b == c
  {
    BodyOf(b);
    BodyOf(c);
  }

  /** The value as the store compares it: trimmed, and without trailing padding. */
  function Unpadded(value: string): string {
    TrimEnd(Trim(value, JsSpace), IsPad)
  }

  /** What the store writes: the canonical encoding when the unpadded value is a canonical body, nothing when it
      is empty, else the trimmed value. */
  lemma NormalizeIs(value: string) returns (b: seq<Byte>)
    ensures Unpadded(value) == "" ==> Normalize(value) == ""
    ensures Unpadded(value) != "" ==>
      if Unpadded(value) == Body(b) then b != [] && Normalize(value) == Encode(b)
      else Normalize(value) == Trim(value, JsSpace) && forall c :: Unpadded(value) != Body(c)
  {
    var u := Unpadded(value);
    b := [];
    if u != "" && AllSymbols(u) {
      b := Bytes(Values(u));
      BodyOf(b);
      StripsPads(Body(b), Padding(|Body(b)|));
    }
    forall c ensures u == Body(c) ==> c == b || u == "" {
      BodyOf(c);
    }
    assert Body([]) == "";
    if u != "" && u == Body(b) {
      BodyIff(u);
    }
  }

  /** Writing a stored value again changes nothing. */
  lemma NormalizeIdempotent(value: string)
    ensures Normalize(Normalize(value)) == Normalize(value)
  {
    var b := NormalizeIs(value);
    var once := Normalize(value);
    TrimIdempotent(value, JsSpace);
    assert Unpadded("") == "";
    if Unpadded(value) != "" && Unpadded(value) == Body(b) {
      EncodeSpells(b);
      var c := NormalizeIs(once);
      BodyInjective(b, c);
    }
  }

  /** If what is left without padding is all symbols, the signer can only read those symbols. */
  lemma DecodesUnpadded(t: string, b: seq<Byte>)
    requires AllSymbols(TrimEnd(t, IsPad))
    ensures Decode(t) == Ok(b) ==> b != [] && TrimEnd(t, IsPad) == Body(b)
  {
    var pads := TrimEndSplits(t, IsPad);
    assert Ascii(t);
    AsciiIsTight(t);
    DecodeIff(t, b);
    if Decode(t) == Ok(b) { SpellingIsAscii(t, b); }
  }

  /** Exactly which values the signer can use once stored: those it could use when trimmed as JavaScript trims,
      and canonical bodies under any amount of padding. */
  lemma StoredDecodesIff(value: string, b: seq<Byte>)
    ensures Decode(Normalize(value)) == Ok(b)
       <==> Decode(Trim(value, JsSpace)) == Ok(b) || (b != [] && Unpadded(value) == Body(b))
  {
    var c := NormalizeIs(value);
    BodyOf(b);
    BodyOf(c);
    BodyInjective(b, c);
    if Unpadded(value) == "" {
      DecodesUnpadded(Trim(value, JsSpace), b);
    } else if Unpadded(value) == Body(c) {
      EncodeSpells(c);
      DecodesUnpadded(Trim(value, JsSpace), b);
    }
  }

  lemma TrimKeepsAll(s: string, space: char -> bool, kind: char -> bool)
    requires All(s, kind)
    ensures All(TrimStart(s, space), kind) && All(TrimEnd(s, space), kind)
  {
  }

  /** Trimming first as JavaScript does, which leaves next-line characters alone, loses no usable secret. */
  lemma JsTrimKeepsSecret(value: string, b: seq<Byte>)
    requires Decode(value) == Ok(b)
    ensures Decode(Trim(value, JsSpace)) == Ok(b)
  {
    var core := Trim(value, RustSpace);
    var left, right := TrimSplits(value, RustSpace);
    DecodeIff(value, b);
    SpellingIsAscii(core, b);
    AsciiIsTight(core);
    TrimEnds(left, core, right, JsSpace);
    TrimKeepsAll(left, JsSpace, RustSpace);
    TrimKeepsAll(right, JsSpace, RustSpace);
    var l, r := TrimStart(left, JsSpace), TrimEnd(right, JsSpace);
    TrimEnds(l, core, r, RustSpace);
    TrimAll(l, RustSpace);
    TrimAll(r, RustSpace);
    assert "" + core + "" == core;
  }

  /** Any secret the signer accepts still decodes to the same bytes after it was stored. */
  lemma NormalizeKeepsSecret(value: string, b: seq<Byte>)
    requires Decode(value) == Ok(b)
    ensures Decode(Normalize(value)) == Ok(b)
  {
    JsTrimKeepsSecret(value, b);
    StoredDecodesIff(value, b);
  }

  // ---- the decode cache ----

  const CACHE_SOFT_LIMIT := 16

  function Kept(cache: map<string, seq<Byte>>, key: string, decoded: seq<Byte>): map<string, seq<Byte>> {
    (if |cache| > CACHE_SOFT_LIMIT then map[] else cache)[key := decoded]
  }

  /** Every entry is what a direct decode of its key gives, and there are at most 17. */
  ghost predicate Faithful(cache: map<string, seq<Byte>>) {
    && |cache| <= CACHE_SOFT_LIMIT + 1
    && forall key :: key in cache ==> Decode(key) == Ok(cache[key])
  }

  lemma KeptIsFaithful(cache: map<string, seq<Byte>>, key: string, decoded: seq<Byte>)
    requires Faithful(cache) && Decode(key) == Ok(decoded)
    ensures Faithful(Kept(cache, key, decoded))
  {
  }

  lemma DecodeOfTrimmed(raw: string)
    ensures Decode(Trim(raw, RustSpace)) == Decode(raw)
  {
    TrimIdempotent(raw, RustSpace);
  }

  class SecretCache {
    var cache: map<string, seq<Byte>>

    constructor ()
      ensures Faithful(cache)
    {
      cache := map[];
    }

    /** `readable` and `writable` say whether the two locks were obtained. */
    method CachedDecode(raw: string, readable: bool, writable: bool) returns (r: Result<seq<Byte>>)
      requires Faithful(cache)
      modifies this
      ensures Faithful(cache) && r == Decode(raw)
      ensures
        var key := Trim(raw, RustSpace);
        if r.Err? || !writable || (readable && key in old(cache)) then cache == old(cache)
        else if |old(cache)| <= 16 then cache == old(cache)[key := r.value]
        else cache == map[key := r.value]
    {
      DecodeOfTrimmed(raw);
      var key := Trim(raw, RustSpace);
      if readable && key in cache { return Ok(cache[key]); }
      r := Decode(key);
      if r.Ok? && writable {
        KeptIsFaithful(cache, key, r.value);
        cache := Kept(cache, key, r.value);
      }
    }
  }

  /** The lock is taken twice, so callers interleave: `Find` is the first critical section of one of them and
      `Keep` the second, reached only with a key that decoded. */
  datatype CacheStep = Find(raw: string) | Keep(raw: string)

  function After(cache: map<string, seq<Byte>>, steps: seq<CacheStep>): map<string, seq<Byte>> {
    if steps == [] then cache
    else
      var before, step := After(cache, steps[..|steps| - 1]), steps[|steps| - 1];
      if step.Find? then before
      else
        var key := Trim(step.raw, RustSpace);
        var decoded := Decode(key);
        if decoded.Ok? then Kept(before, key, decoded.value) else before
  }

  /** In every interleaving, whatever a caller finds is what it would have decoded itself. */
  lemma {:induction false} EveryHitIsDirect(steps: seq<CacheStep>, raw: string)
    ensures var cache, key := After(map[], steps), Trim(raw, RustSpace);
      Faithful(cache) && (key in cache ==> Decode(raw) == Ok(cache[key]))
  {
    DecodeOfTrimmed(raw);
    if steps != [] {
      var before, step := After(map[], steps[..|steps| - 1]), steps[|steps| - 1];
      EveryHitIsDirect(steps[..|steps| - 1], raw);
      var key := Trim(step.raw, RustSpace);
      if step.Keep? && Decode(key).Ok? {
        KeptIsFaithful(before, key, Decode(key).value);
      }
    }
  }

  /** Looking changes nothing, and what was kept last is there, if it is a secret at all. */
  lemma FoundOnceKept(steps: seq<CacheStep>, raw: string)
    ensures After(map[], steps + [Find(raw)]) == After(map[], steps)
    ensures Trim(raw, RustSpace) in After(map[], steps + [Keep(raw)]) <==> Decode(raw).Ok?
  {
    assert (steps + [Find(raw)])[..|steps|] == steps && (steps + [Keep(raw)])[..|steps|] == steps;
    EveryHitIsDirect(steps, raw);
    DecodeOfTrimmed(raw);
  }
}
