/** `JSON.stringify` of a canonical form, character by character, and the signatures made of it. Text determines the
    value, so that signatures agree exactly when meanings do. */
module JsonText {
  import opened Common
  import opened Sorting
  import opened StableJson

  // Numbers: their spelling is the platform's, of which only this is used

  predicate IsNumChar(c: char) {
    '0' <= c <= '9' || c in "+-.e"
  }

  type Spelling = Number -> string

  /** Different numbers are spelled differently, in number characters, beginning with a digit or a minus sign. */
  ghost predicate SpellsNumbers(f: Spelling) {
    && (forall x, y :: f(x) == f(y) ==> x == y)
    && (forall x :: f(x) != "" && (f(x)[0] == '-' || '0' <= f(x)[0] <= '9'))
    && (forall x, i :: 0 <= i < |f(x)| ==> IsNumChar(f(x)[i]))
  }

  function Ones(n: nat): string {
    seq(n, _ => '1')
  }

  function Unary(n: Number): string {
    if n >= 0 then Ones(n + 1) else "-" + Ones(-n)
  }

  /** There are such spellings; counting strokes is one. */
  lemma SpellingExists()
    ensures SpellsNumbers(Unary)
  {
    forall x, y | Unary(x) == Unary(y) ensures x == y {
      assert Unary(x)[0] == Unary(y)[0] && |Unary(x)| == |Unary(y)|;
    }
  }

  // Strings

  function HexDigit(n: nat): char
    requires n < 16
  {
    "0123456789abcdef"[n]
  }

  /** One character of a quoted string; control characters without a short form are written as \u00XX. */
  function Escaped(c: char): string {
    if c == '\"' then "\\\""
    else if c == '\\' then "\\\\"
    else if c == 8 as char then "\\b"
    else if c == 9 as char then "\\t"
    else if c == 10 as char then "\\n"
    else if c == 12 as char then "\\f"
    else if c == 13 as char then "\\r"
    else if c < 32 as char then "\\u00" + [HexDigit(c as int / 16), HexDigit(c as int % 16)]
    else [c]
  }

  /** A string from its first character to its closing quote. */
  function Quoted(s: string): string {
    if s == "" then "\"" else Escaped(s[0]) + Quoted(s[1..])
  }

  function QuotedString(s: string): string {
    "\"" + Quoted(s)
  }

  // Section 7 of RFC 8259: how a string is read

  function HexValue(c: char): Option<nat> {
    if '0' <= c <= '9' then Some(c as int - '0' as int)
    else if 'a' <= c <= 'f' then Some(c as int - 'a' as int + 10)
    else if 'A' <= c <= 'F' then Some(c as int - 'A' as int + 10)
    else None
  }

  /** The character of a \u escape; surrogates are no characters. */
  function ReadHex(t: string): Option<char>
    requires |t| >= 4
  {
    var a, b, c, d := HexValue(t[0]), HexValue(t[1]), HexValue(t[2]), HexValue(t[3]);
    if a.None? || b.None? || c.None? || d.None? then None
    else
      var code := 4096 * a.value + 256 * b.value + 16 * c.value + d.value;
      if code < 0xd800 || 0xe000 <= code < 0x10000 then Some(code as char) else None
  }

  /** One character of a string and what follows it. */
  function ReadChar(t: string): (r: Option<(char, string)>)
    requires t != ""
    ensures r.Some? ==> |r.value.1| < |t|
  {
    if t[0] < ' ' || t[0] == '\"' then None
    else if t[0] != '\\' then Some((t[0], t[1..]))
    else if |t| < 2 then None
    else if t[1] == 'u' then
      if |t| < 6 || ReadHex(t[2..6]).None? then None else Some((ReadHex(t[2..6]).value, t[6..]))
    else if t[1] == '\"' || t[1] == '\\' || t[1] == '/' then Some((t[1], t[2..]))
    else if t[1] == 'b' then Some(('\U{8}', t[2..]))
    else if t[1] == 'f' then Some(('\U{c}', t[2..]))
    else if t[1] == 'n' then Some(('\U{a}', t[2..]))
    else if t[1] == 'r' then Some(('\U{d}', t[2..]))
    else if t[1] == 't' then Some(('\U{9}', t[2..]))
    else None
  }

  /** A string up to its closing quote, and what follows that. */
  function ReadString(t: string): Option<(string, string)>
    decreases |t|
  {
    if t == "" then None
    else if t[0] == '\"' then Some(("", t[1..]))
    else if ReadChar(t).None? then None
    else
      var more := ReadString(ReadChar(t).value.1);
      if more.None? then None else Some(([ReadChar(t).value.0] + more.value.0, more.value.1))
  }

  lemma HexRoundTrip(c: char)
    requires c < ' '
    ensures ReadHex("00" + [HexDigit(c as int / 16), HexDigit(c as int % 16)]) == Some(c)
  {
    assert HexValue(HexDigit(c as int / 16)) == Some(c as int / 16);
    assert HexValue(HexDigit(c as int % 16)) == Some(c as int % 16);
  }

  lemma ReadsEscaped(c: char, x: string)
    ensures Escaped(c) != "" && Escaped(c)[0] != '\"'
    ensures Escaped(c) + x != "" && ReadChar(Escaped(c) + x) == Some((c, x))
  {
    var e := Escaped(c);
    assert (e + x)[|e|..] == x;
    if |e| == 6 {
      HexRoundTrip(c);
      assert (e + x)[2..6] == "00" + [HexDigit(c as int / 16), HexDigit(c as int % 16)];
    }
  }

  /** What is escaped, and how: quotes, backslashes and control characters only, the latter in the short form if there
      is one. */
  lemma EscapedForm(c: char)
    ensures Escaped(c) == [c] <==> c >= '\U{20}' && c != '\"' && c != '\\'
    ensures |Escaped(c)| == 2 <==> c in ['\"', '\\', '\U{8}', '\U{9}', '\U{a}', '\U{c}', '\U{d}']
    ensures |Escaped(c)| != 1 && |Escaped(c)| != 2 ==>
      |Escaped(c)| == 6 && forall k :: 2 <= k < 6 ==> Escaped(c)[k] in "0123456789abcdef"
  {
  }

  lemma SamePrefix<T>(a: seq<T>, b: seq<T>, x: seq<T>, y: seq<T>)
    requires a + x == b + y && |a| == |b|
    ensures a == b && x == y
  {
    assert a == (a + x)[..|a|] && b == (b + y)[..|b|];
    assert x == (a + x)[|a|..] && y == (b + y)[|b|..];
  }

  lemma Associates<T>(a: seq<T>, b: seq<T>, x: seq<T>)
    ensures (a + b) + x == a + (b + x)
  {
  }

  lemma StartsWith<T>(a: seq<T>, x: seq<T>)
    requires a != []
    ensures a + x != [] && (a + x)[0] == a[0]
  {
  }

  /** Escape sequences are a prefix code. */
  lemma EscapedInjective(c: char, d: char, x: string, y: string)
    requires Escaped(c) + x == Escaped(d) + y
    ensures c == d && x == y
  {
    ReadsEscaped(c, x);
    ReadsEscaped(d, y);
  }

  lemma QuotedHead(s: string, x: string)
    ensures Quoted(s) != "" && ((Quoted(s) + x)[0] == '\"' <==> s == "")
    ensures s != "" ==> Quoted(s) + x == Escaped(s[0]) + (Quoted(s[1..]) + x)
  {
    if s == "" {
      StartsWith("\"", x);
    } else {
      ReadsEscaped(s[0], "");
      Associates(Escaped(s[0]), Quoted(s[1..]), x);
      StartsWith(Escaped(s[0]), Quoted(s[1..]) + x);
    }
  }

  /** A quoted string reads back as the string, whatever follows it. */
  lemma {:induction false} StringRoundTrip(s: string, x: string)
    ensures ReadString(Quoted(s) + x) == Some((s, x))
  {
    QuotedHead(s, x);
    if s == "" {
      assert (Quoted(s) + x)[1..] == x;
    } else {
      StringRoundTrip(s[1..], x);
      ReadsEscaped(s[0], Quoted(s[1..]) + x);
      assert s == [s[0]] + s[1..];
    }
  }

  lemma QuotedInjective(s: string, t: string, x: string, y: string)
    requires Quoted(s) + x == Quoted(t) + y
    ensures s == t && x == y
  {
    StringRoundTrip(s, x);
    StringRoundTrip(t, y);
  }

  lemma QuotedStringHead(s: string, x: string)
    ensures QuotedString(s) + x == "\"" + (Quoted(s) + x)
  {
    Associates("\"", Quoted(s), x);
  }

  lemma QuotedStringInjective(s: string, t: string, x: string, y: string)
    requires QuotedString(s) + x == QuotedString(t) + y
    ensures s == t && x == y
  {
    QuotedStringHead(s, x);
    QuotedStringHead(t, y);
    SamePrefix("\"", "\"", Quoted(s) + x, Quoted(t) + y);
    QuotedInjective(s, t, x, y);
  }

  // Values

  ghost function Text(v: Js, f: Spelling): string
    requires Solid(v)
    decreases v, 0
  {
    match v
    case Null => "null"
    case Bool(b) => if b then "true" else "false"
    case Num(n) => f(n)
    case Str(s) => QuotedString(s)
    case Arr(_) => "[" + ItemsText(v, f, 0)
    case Obj(_, _) => "{" + FieldsText(v, f, 0)
  }

  function Comma(i: nat): string {
    if i == 0 then "" else ","
  }

  /** The items from the `i`-th on, with their commas and the closing bracket. */
  ghost function ItemsText(v: Js, f: Spelling, i: nat): string
    requires Solid(v) && v.Arr? && i <= |v.items|
    decreases v, 0, |v.items| - i
  {
    if i == |v.items| then "]" else Comma(i) + (Text(v.items[i], f) + ItemsText(v, f, i + 1))
  }

  ghost function FieldsText(v: Js, f: Spelling, i: nat): string
    requires Solid(v) && v.Obj? && i <= |v.keys|
    decreases v, 0, |v.keys| - i
  {
    if i == |v.keys| then "}"
    else
      assert v.keys[i] in v.fields;
      Comma(i) + (QuotedString(v.keys[i]) + (":" + (Text(v.fields[v.keys[i]], f) + FieldsText(v, f, i + 1))))
  }

  /** What may follow a value: nothing, or a character that no number contains. */
  predicate Ends(s: string) {
    s == "" || !IsNumChar(s[0])
  }

  /** The kind of a value can be told from the first character of its text. */
  predicate Leads(c: char, v: Js) {
    match v
    case Null => c == 'n'
    case Bool(b) => c == if b then 't' else 'f'
    case Num(_) => c == '-' || '0' <= c <= '9'
    case Str(_) => c == '\"'
    case Arr(_) => c == '['
    case Obj(_, _) => c == '{'
    case Absent => false
  }

  lemma TextLeads(v: Js, f: Spelling, s: string)
    requires Solid(v) && SpellsNumbers(f)
    ensures Text(v, f) != "" && Leads(Text(v, f)[0], v) && (Text(v, f) + s)[0] == Text(v, f)[0]
  {
  }

  lemma LeadsOnce(c: char, v: Js, w: Js)
    requires Leads(c, v) && Leads(c, w)
    ensures v.Null? <==> w.Null?
    ensures v.Bool? <==> w.Bool?
    ensures v.Bool? ==> v == w
    ensures v.Num? <==> w.Num?
    ensures v.Str? <==> w.Str?
    ensures v.Arr? <==> w.Arr?
    ensures v.Obj? <==> w.Obj?
    ensures c !in ",]}"
  {
  }

  lemma ShorterGoesOn(a: string, b: string, s: string, t: string)
    requires a + s == b + t && forall i :: 0 <= i < |b| ==> IsNumChar(b[i])
    ensures |a| < |b| ==> s != "" && IsNumChar(s[0])
  {
    if |a| < |b| { assert s[0] == (a + s)[|a|] == (b + t)[|a|] == b[|a|]; }
  }

  /** A run of number characters ends where another character comes. */
  lemma NumbersInjective(a: string, b: string, s: string, t: string)
    requires a + s == b + t && Ends(s) && Ends(t)
    requires forall i :: 0 <= i < |a| ==> IsNumChar(a[i])
    requires forall i :: 0 <= i < |b| ==> IsNumChar(b[i])
    ensures a == b && s == t
  {
    ShorterGoesOn(a, b, s, t);
    ShorterGoesOn(b, a, t, s);
    SamePrefix(a, b, s, t);
  }

  lemma ItemsHead(v: Js, f: Spelling, i: nat, s: string)
    requires Solid(v) && v.Arr? && i <= |v.items| && SpellsNumbers(f)
    ensures ItemsText(v, f, i) + s != ""
    ensures (ItemsText(v, f, i) + s)[0] == ']' <==> i == |v.items|
    ensures i < |v.items| ==>
      ItemsText(v, f, i) + s == Comma(i) + (Text(v.items[i], f) + (ItemsText(v, f, i + 1) + s))
  {
    if i < |v.items| {
      var text, rest := Text(v.items[i], f), ItemsText(v, f, i + 1);
      TextLeads(v.items[i], f, rest);
      Associates(Comma(i), text + rest, s);
      Associates(text, rest, s);
    }
  }

  /** What follows an item ends it. */
  lemma ItemsEnd(v: Js, f: Spelling, i: nat, s: string)
    requires Solid(v) && v.Arr? && 0 < i <= |v.items|
    ensures Ends(ItemsText(v, f, i) + s)
  {
  }

  lemma FieldsHead(v: Js, f: Spelling, i: nat, s: string)
    requires Solid(v) && v.Obj? && i <= |v.keys|
    ensures FieldsText(v, f, i) + s != "" && Ends(FieldsText(v, f, i) + s)
    ensures (FieldsText(v, f, i) + s)[0] == '}' <==> i == |v.keys|
    ensures i < |v.keys| ==>
      && v.keys[i] in v.fields
      && FieldsText(v, f, i) + s == Comma(i) + (QuotedString(v.keys[i])
           + (":" + (Text(v.fields[v.keys[i]], f) + (FieldsText(v, f, i + 1) + s))))
  {
    if i < |v.keys| {
      assert v.keys[i] in v.fields;
      var key, text, rest := QuotedString(v.keys[i]), Text(v.fields[v.keys[i]], f), FieldsText(v, f, i + 1);
      Associates(text, rest, s);
      Associates(":", text + rest, s);
      Associates(key, ":" + (text + rest), s);
      Associates(Comma(i), key + (":" + (text + rest)), s);
      assert key[0] == '\"';
    } else {
      StartsWith("}", s);
    }
  }

  lemma StripKey(k: string, l: string, s: string, t: string)
    requires QuotedString(k) + (":" + s) == QuotedString(l) + (":" + t)
    ensures k == l && s == t
  {
    QuotedStringInjective(k, l, ":" + s, ":" + t);
    SamePrefix(":", ":", s, t);
  }

  /** Values without parts. */
  lemma AtomInjective(v: Js, w: Js, f: Spelling, s: string, t: string)
    requires Solid(v) && Solid(w) && SpellsNumbers(f) && Ends(s) && Ends(t) && !v.Arr? && !v.Obj?
    requires Text(v, f) + s == Text(w, f) + t && Leads(Text(v, f)[0], v) && Leads(Text(v, f)[0], w)
    ensures v == w && s == t
  {
    LeadsOnce(Text(v, f)[0], v, w);
    if v.Num? {
      NumbersInjective(f(v.n), f(w.n), s, t);
    } else if v.Str? {
      QuotedStringInjective(v.s, w.s, s, t);
    } else {
      SamePrefix(Text(v, f), Text(w, f), s, t);
    }
  }

  /** From the `i`-th on, the keys and their values are the same. */
  ghost predicate FieldsAgree(v: Js, w: Js, i: nat)
    requires v.Obj? && w.Obj? && |v.keys| == |w.keys|
    decreases |v.keys| - i
  {
    i < |v.keys| ==>
      && v.keys[i] == w.keys[i] && v.keys[i] in v.fields && v.keys[i] in w.fields
      && v.fields[v.keys[i]] == w.fields[v.keys[i]] && FieldsAgree(v, w, i + 1)
  }

  lemma {:induction false} AgreeAt(v: Js, w: Js, i: nat, j: nat)
    requires v.Obj? && w.Obj? && |v.keys| == |w.keys| && FieldsAgree(v, w, i) && i <= j < |v.keys|
    ensures v.keys[j] == w.keys[j] && v.keys[j] in v.fields && v.keys[j] in w.fields
    ensures v.fields[v.keys[j]] == w.fields[v.keys[j]]
    decreases j - i
  {
    if i < j { AgreeAt(v, w, i + 1, j); }
  }

  lemma SameFields(v: Js, w: Js)
    requires v.Obj? && w.Obj? && Solid(v) && Solid(w) && |v.keys| == |w.keys| && FieldsAgree(v, w, 0)
    ensures v == w
  {
    forall j | 0 <= j < |v.keys| ensures v.keys[j] == w.keys[j] { AgreeAt(v, w, 0, j); }
    assert v.keys == w.keys;
    forall k | k in v.fields ensures k in w.fields && w.fields[k] == v.fields[k] {
      var j :| 0 <= j < |v.keys| && v.keys[j] == k;
      AgreeAt(v, w, 0, j);
    }
    assert v.fields.Keys == w.fields.Keys;
    assert v.fields == w.fields;
  }

  /** Items that read alike: the next ones read alike. */
  lemma NextItem(v: Js, w: Js, f: Spelling, i: nat, s: string, t: string)
    requires Solid(v) && Solid(w) && SpellsNumbers(f) && v.Arr? && w.Arr? && i < |v.items| && i < |w.items|
    requires ItemsText(v, f, i) + s == ItemsText(w, f, i) + t
    ensures Text(v.items[i], f) + (ItemsText(v, f, i + 1) + s) == Text(w.items[i], f) + (ItemsText(w, f, i + 1) + t)
    ensures Ends(ItemsText(v, f, i + 1) + s) && Ends(ItemsText(w, f, i + 1) + t)
  {
    ItemsHead(v, f, i, s);
    ItemsHead(w, f, i, t);
    SamePrefix(Comma(i), Comma(i), Text(v.items[i], f) + (ItemsText(v, f, i + 1) + s),
               Text(w.items[i], f) + (ItemsText(w, f, i + 1) + t));
    ItemsEnd(v, f, i + 1, s);
    ItemsEnd(w, f, i + 1, t);
  }

  /** Items that read alike end at the same place. */
  lemma LastItem(v: Js, w: Js, f: Spelling, i: nat, s: string, t: string)
    requires Solid(v) && Solid(w) && SpellsNumbers(f) && v.Arr? && w.Arr? && i <= |v.items| && i <= |w.items|
    requires ItemsText(v, f, i) + s == ItemsText(w, f, i) + t
    ensures i == |v.items| <==> i == |w.items|
    ensures i == |v.items| ==> s == t
  {
    ItemsHead(v, f, i, s);
    ItemsHead(w, f, i, t);
    if i == |v.items| && i == |w.items| { SamePrefix("]", "]", s, t); }
  }

  /** Fields that read alike have the same next key, and their values read alike. */
  lemma NextField(v: Js, w: Js, f: Spelling, i: nat, s: string, t: string)
    requires Solid(v) && Solid(w) && v.Obj? && w.Obj? && i < |v.keys| && i < |w.keys|
    requires FieldsText(v, f, i) + s == FieldsText(w, f, i) + t
    ensures v.keys[i] == w.keys[i] && v.keys[i] in v.fields && v.keys[i] in w.fields
    ensures Text(v.fields[v.keys[i]], f) + (FieldsText(v, f, i + 1) + s)
         == Text(w.fields[v.keys[i]], f) + (FieldsText(w, f, i + 1) + t)
    ensures Ends(FieldsText(v, f, i + 1) + s) && Ends(FieldsText(w, f, i + 1) + t)
  {
    FieldsHead(v, f, i, s);
    FieldsHead(w, f, i, t);
    var s1 := Text(v.fields[v.keys[i]], f) + (FieldsText(v, f, i + 1) + s);
    var t1 := Text(w.fields[w.keys[i]], f) + (FieldsText(w, f, i + 1) + t);
    SamePrefix(Comma(i), Comma(i), QuotedString(v.keys[i]) + (":" + s1), QuotedString(w.keys[i]) + (":" + t1));
    StripKey(v.keys[i], w.keys[i], s1, t1);
    FieldsHead(v, f, i + 1, s);
    FieldsHead(w, f, i + 1, t);
  }

  /** Fields that read alike end at the same place. */
  lemma LastField(v: Js, w: Js, f: Spelling, i: nat, s: string, t: string)
    requires Solid(v) && Solid(w) && v.Obj? && w.Obj? && i <= |v.keys| && i <= |w.keys|
    requires FieldsText(v, f, i) + s == FieldsText(w, f, i) + t
    ensures i == |v.keys| <==> i == |w.keys|
    ensures i == |v.keys| ==> s == t
  {
    FieldsHead(v, f, i, s);
    FieldsHead(w, f, i, t);
    if i == |v.keys| && i == |w.keys| { SamePrefix("}", "}", s, t); }
  }

  /** No text is a prefix of another's: the first value written can be read back whatever follows it. */
  lemma {:induction false} TextInjective(v: Js, w: Js, f: Spelling, s: string, t: string)
    requires Solid(v) && Solid(w) && SpellsNumbers(f) && Ends(s) && Ends(t)
    requires Text(v, f) + s == Text(w, f) + t
    ensures v == w && s == t
    decreases v, 1
  {
    TextLeads(v, f, s);
    TextLeads(w, f, t);
    LeadsOnce(Text(v, f)[0], v, w);
    if v.Arr? {
      Associates("[", ItemsText(v, f, 0), s);
      Associates("[", ItemsText(w, f, 0), t);
      SamePrefix("[", "[", ItemsText(v, f, 0) + s, ItemsText(w, f, 0) + t);
      ItemsInjective(v, w, f, 0, s, t);
      assert v.items == w.items;
    } else if v.Obj? {
      Associates("{", FieldsText(v, f, 0), s);
      Associates("{", FieldsText(w, f, 0), t);
      SamePrefix("{", "{", FieldsText(v, f, 0) + s, FieldsText(w, f, 0) + t);
      FieldsInjective(v, w, f, 0, s, t);
      SameFields(v, w);
    } else {
      AtomInjective(v, w, f, s, t);
    }
  }

  lemma {:induction false} ItemsInjective(v: Js, w: Js, f: Spelling, i: nat, s: string, t: string)
    requires Solid(v) && Solid(w) && SpellsNumbers(f) && v.Arr? && w.Arr? && i <= |v.items| && i <= |w.items|
    requires ItemsText(v, f, i) + s == ItemsText(w, f, i) + t
    ensures |v.items| == |w.items| && s == t
    ensures forall j :: i <= j < |v.items| ==> v.items[j] == w.items[j]
    decreases v, 0, |v.items| - i
  {
    LastItem(v, w, f, i, s, t);
    if i < |v.items| {
      NextItem(v, w, f, i, s, t);
      TextInjective(v.items[i], w.items[i], f, ItemsText(v, f, i + 1) + s, ItemsText(w, f, i + 1) + t);
      ItemsInjective(v, w, f, i + 1, s, t);
    }
  }

  lemma {:induction false} FieldsInjective(v: Js, w: Js, f: Spelling, i: nat, s: string, t: string)
    requires Solid(v) && Solid(w) && SpellsNumbers(f) && v.Obj? && w.Obj? && i <= |v.keys| && i <= |w.keys|
    requires FieldsText(v, f, i) + s == FieldsText(w, f, i) + t
    ensures |v.keys| == |w.keys| && s == t
    ensures FieldsAgree(v, w, i)
    decreases v, 0, |v.keys| - i
  {
    LastField(v, w, f, i, s, t);
    if i < |v.keys| {
      var k := v.keys[i];
      NextField(v, w, f, i, s, t);
      TextInjective(v.fields[k], w.fields[k], f, FieldsText(v, f, i + 1) + s, FieldsText(w, f, i + 1) + t);
      FieldsInjective(v, w, f, i + 1, s, t);
    }
  }

  // Signatures

  ghost function Signature(v: Js, f: Spelling): string
    requires Proper(v) && !v.Absent?
  {
    NormIsSolid(v);
    Text(Norm(v), f)
  }

  predicate ShouldSkip(hydrated: Option<string>, payload: string, shouldSave: bool) {
    shouldSave && hydrated.Some? && payload == hydrated.value
  }

  /** A switch-save is skipped exactly when one was due and the draft still means what was loaded. */
  lemma SkipIffSameMeaning(hydrated: Js, payload: Js, f: Spelling, shouldSave: bool)
    requires Proper(hydrated) && Proper(payload) && !hydrated.Absent? && !payload.Absent? && SpellsNumbers(f)
    ensures ShouldSkip(Some(Signature(hydrated, f)), Signature(payload, f), shouldSave) <==>
      shouldSave && Meaning(hydrated) == Meaning(payload)
  {
    NormIffMeaning(hydrated, payload);
    NormIsSolid(hydrated);
    NormIsSolid(payload);
    if Signature(hydrated, f) == Signature(payload, f) {
      TextInjective(Norm(hydrated), Norm(payload), f, "", "");
    }
  }
}
