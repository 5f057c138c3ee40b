/** Splitting a Telegram message into chunks (`telegram_notification.rs`). A reader that strips the continuation
    marks is the partner of the split, and the number of chunks is compared with the fewest possible. */
module TelegramChunks {
  import opened Common

  const MAX_TEXT_CHARS := 4096
  const CONTINUATION_PREFIX := "(devam)\n"
  const CONTINUATION_SUFFIX := "\n...(devam var)"
  const FIRST_BODY_LIMIT := 4081
  const CONTINUATION_BODY_LIMIT := 4073

  function Prefix(first: bool): string {
    if first then "" else CONTINUATION_PREFIX
  }

  function BodyLimit(first: bool): (n: nat)
    ensures n == MAX_TEXT_CHARS - |Prefix(first)| - |CONTINUATION_SUFFIX|
  {
    if first then FIRST_BODY_LIMIT else CONTINUATION_BODY_LIMIT
  }

  /** The chunks of the text that is left, cut at `BodyLimit`. */
  function Split(rest: string, first: bool): (chunks: seq<string>)
    ensures chunks != []
    decreases |rest|
  {
    var limit := BodyLimit(first);
    if |rest| <= limit then [Prefix(first) + rest]
    else [Prefix(first) + rest[..limit] + CONTINUATION_SUFFIX] + Split(rest[limit..], false)
  }

  function Chunks(text: string): seq<string> {
    if |text| <= MAX_TEXT_CHARS then [text] else Split(text, true)
  }

  /** The text without its leading or trailing mark, if it has that mark. */
  function Without(text: string, prefix: string, suffix: string): Option<string> {
    if |prefix| + |suffix| <= |text| && text[..|prefix|] == prefix && text[|text| - |suffix|..] == suffix
    then Some(text[|prefix|..|text| - |suffix|]) else None
  }

  /** What a recipient reads: the prefix is taken off every chunk but the first, the suffix off every chunk but
      the last, and the rest is joined. */
  function Rejoin(chunks: seq<string>, first: bool): Option<string>
    decreases |chunks|
  {
    if chunks == [] then None
    else if |chunks| == 1 then Without(chunks[0], Prefix(first), "")
    else
      var body, tail := Without(chunks[0], Prefix(first), CONTINUATION_SUFFIX), Rejoin(chunks[1..], false);
      if body.Some? && tail.Some? then Some(body.value + tail.value) else None
  }

  ghost predicate Fit(chunks: seq<string>) {
    forall i :: 0 <= i < |chunks| ==> |chunks[i]| <= MAX_TEXT_CHARS
  }

  /** The least `k` with `k * CONTINUATION_BODY_LIMIT >= n`. */
  function CeilDiv(n: nat): nat {
    (n + CONTINUATION_BODY_LIMIT - 1) / CONTINUATION_BODY_LIMIT
  }

  /** The inner loop: the prefix and the body of one chunk. */
  method FillBody(text: string, start: nat, first: bool) returns (chunk: string, pos: nat)
    requires start < |text|
    ensures pos == Min(start + BodyLimit(first), |text|)
    ensures chunk == Prefix(first) + text[start..pos]
  {
    chunk := "";
    if !first { chunk := chunk + CONTINUATION_PREFIX; }
    var limit := BodyLimit(first);
    var taken := 0;
    pos := start;
    while taken < limit && pos < |text|
      invariant 0 <= taken <= limit && start <= pos <= |text| && pos == start + taken
      invariant chunk == Prefix(first) + text[start..pos]
    {
      assert text[start..pos + 1] == text[start..pos] + [text[pos]];
      chunk := chunk + [text[pos]];
      pos, taken := pos + 1, taken + 1;
    }
  }

  /** One pass of the outer loop: what `Split` yields for the text from `start`. */
  lemma SplitStep(text: string, start: nat, end: nat, first: bool)
    requires start < |text| && end == Min(start + BodyLimit(first), |text|)
    ensures Split(text[start..], first) ==
      if end == |text| then [Prefix(first) + text[start..end]]
      else [Prefix(first) + text[start..end] + CONTINUATION_SUFFIX] + Split(text[end..], false)
  {
    var rest := text[start..];
    if end < |text| {
      assert rest[..BodyLimit(first)] == text[start..end] && rest[BodyLimit(first)..] == text[end..];
    } else {
      assert rest == text[start..end];
    }
  }

  /** The outer loop. */
  method FillChunks(text: string) returns (chunks: seq<string>)
    requires text != ""
    ensures chunks == Split(text, true)
  {
    var pos, first := 0, true;
    chunks := [];
    assert text[0..] == text;
    while pos < |text|
      invariant 0 <= pos <= |text|
      invariant pos < |text| ==> chunks + Split(text[pos..], first) == Split(text, true)
      invariant pos == |text| ==> chunks == Split(text, true)
    {
      var chunk, end := FillBody(text, pos, first);
      SplitStep(text, pos, end, first);
      if end < |text| {
        chunk := chunk + CONTINUATION_SUFFIX;
        assert chunks + [chunk] + Split(text[end..], false) == chunks + ([chunk] + Split(text[end..], false));
      }
      chunks := chunks + [chunk];
      pos, first := end, false;
    }
  }

  lemma WithoutUndoes(prefix: string, body: string, suffix: string)
    ensures Without(prefix + body + suffix, prefix, suffix) == Some(body)
  {
  }

  lemma {:induction false} SplitRejoins(rest: string, first: bool)
    ensures Rejoin(Split(rest, first), first) == Some(rest) && Fit(Split(rest, first))
    decreases |rest|
  {
    var limit, chunks := BodyLimit(first), Split(rest, first);
    if |rest| <= limit {
      WithoutUndoes(Prefix(first), rest, "");
      assert Prefix(first) + rest + "" == Prefix(first) + rest;
    } else {
      SplitRejoins(rest[limit..], false);
      WithoutUndoes(Prefix(first), rest[..limit], CONTINUATION_SUFFIX);
      assert chunks[1..] == Split(rest[limit..], false);
      assert rest == rest[..limit] + rest[limit..];
    }
  }

  /** Every chunk can be sent, and reading them back gives the text. */
  lemma ChunksRejoin(text: string)
    ensures Rejoin(Chunks(text), true) == Some(text) && Fit(Chunks(text))
  {
    SplitRejoins(text, true);
    WithoutUndoes("", text, "");
    assert "" + text + "" == text;
  }

  lemma {:induction false} SplitCount(rest: string)
    requires rest != ""
    ensures |Split(rest, false)| == CeilDiv(|rest|)
    decreases |rest|
  {
    if |rest| > CONTINUATION_BODY_LIMIT {
      SplitCount(rest[CONTINUATION_BODY_LIMIT..]);
    }
  }

  lemma ChunkCount(text: string)
    ensures |Chunks(text)| == if |text| <= MAX_TEXT_CHARS then 1 else 1 + CeilDiv(|text| - FIRST_BODY_LIMIT)
  {
    if |text| > MAX_TEXT_CHARS {
      SplitCount(text[FIRST_BODY_LIMIT..]);
    }
  }

  predicate EndsIn(text: string, suffix: string) {
    |suffix| <= |text| && text[|text| - |suffix|..] == suffix
  }

  /** Every chunk but the first says that it continues one, every chunk but the last that it is continued. */
  ghost predicate Marked(chunks: seq<string>) {
    && (forall i :: 0 < i < |chunks| ==> "(devam)\n" <= chunks[i])
    && (forall i :: 0 <= i < |chunks| - 1 ==> EndsIn(chunks[i], "\n...(devam var)"))
  }

  lemma {:induction false} SplitIsMarked(rest: string, first: bool)
    ensures Marked(Split(rest, first)) && Prefix(first) <= Split(rest, first)[0]
    decreases |rest|
  {
    if |rest| > BodyLimit(first) { SplitIsMarked(rest[BodyLimit(first)..], false); }
  }

  method TelegramTextChunks(text: string) returns (chunks: seq<string>)
    ensures chunks == Chunks(text)
    ensures forall i :: 0 <= i < |chunks| ==> |chunks[i]| <= 4096
    ensures Rejoin(chunks, true) == Some(text) && Marked(chunks)
    ensures |chunks| == if |text| <= 4096 then 1 else 1 + (|text| - 4081 + 4072) / 4073
  {
    SplitIsMarked(text, true);
    ChunksRejoin(text);
    ChunkCount(text);
    if |text| <= MAX_TEXT_CHARS { return [text]; }
    chunks := FillChunks(text);
  }

  /** However a text is cut into marked chunks that fit, `k` of them carry at most this much. */
  lemma {:induction false} Capacity(chunks: seq<string>, first: bool)
    requires Fit(chunks) && Rejoin(chunks, first).Some?
    ensures |Rejoin(chunks, first).value|
         <= CONTINUATION_BODY_LIMIT * |chunks| + |CONTINUATION_SUFFIX| + if first then |CONTINUATION_PREFIX| else 0
    decreases |chunks|
  {
    if |chunks| > 1 {
      Capacity(chunks[1..], false);
    }
  }

  /** A split that gives the suffix's room in the last chunk to the text as well. */
  function Packed(rest: string, first: bool): (chunks: seq<string>)
    ensures chunks != []
    decreases |rest|
  {
    var limit := BodyLimit(first);
    if |rest| <= limit + |CONTINUATION_SUFFIX| then [Prefix(first) + rest]
    else [Prefix(first) + rest[..limit] + CONTINUATION_SUFFIX] + Packed(rest[limit..], false)
  }

  lemma {:induction false} PackedRejoins(rest: string, first: bool)
    ensures Rejoin(Packed(rest, first), first) == Some(rest) && Fit(Packed(rest, first))
    decreases |rest|
  {
    var limit, chunks := BodyLimit(first), Packed(rest, first);
    if |rest| <= limit + |CONTINUATION_SUFFIX| {
      WithoutUndoes(Prefix(first), rest, "");
      assert Prefix(first) + rest + "" == Prefix(first) + rest;
    } else {
      PackedRejoins(rest[limit..], false);
      WithoutUndoes(Prefix(first), rest[..limit], CONTINUATION_SUFFIX);
      assert chunks[1..] == Packed(rest[limit..], false);
      assert rest == rest[..limit] + rest[limit..];
    }
  }

  lemma {:induction false} PackedCount(rest: string)
    requires |rest| > |CONTINUATION_SUFFIX|
    ensures |Packed(rest, false)| == CeilDiv(|rest| - |CONTINUATION_SUFFIX|)
    decreases |rest|
  {
    if |rest| > CONTINUATION_BODY_LIMIT + |CONTINUATION_SUFFIX| {
      PackedCount(rest[CONTINUATION_BODY_LIMIT..]);
    }
  }

  /** No other way of cutting the text into marked chunks that fit uses fewer chunks. */
  ghost predicate UsesFewest(chunks: seq<string>, text: string) {
    forall other :: Fit(other) && Rejoin(other, true) == Some(text) ==> |chunks| <= |other|
  }

  lemma PackedUsesFewest(text: string)
    ensures UsesFewest(Packed(text, true), text)
    ensures Rejoin(Packed(text, true), true) == Some(text) && Fit(Packed(text, true))
  {
    PackedRejoins(text, true);
    if |text| > MAX_TEXT_CHARS { PackedCount(text[FIRST_BODY_LIMIT..]); }
    forall other | Fit(other) && Rejoin(other, true) == Some(text) ensures |Packed(text, true)| <= |other| {
      Capacity(other, true);
    }
  }

  lemma CeilGap(n: nat)
    requires n > |CONTINUATION_SUFFIX|
    ensures CeilDiv(n) == CeilDiv(n - |CONTINUATION_SUFFIX|)
                          + if (n - 1) % CONTINUATION_BODY_LIMIT < |CONTINUATION_SUFFIX| then 1 else 0
  {
  }

  lemma PackedSaves(text: string)
    requires |text| > MAX_TEXT_CHARS
    ensures |Chunks(text)| == |Packed(text, true)|
                 + if (|text| - FIRST_BODY_LIMIT - 1) % CONTINUATION_BODY_LIMIT < |CONTINUATION_SUFFIX| then 1 else 0
  {
    ChunkCount(text);
    PackedCount(text[FIRST_BODY_LIMIT..]);
    CeilGap(|text| - FIRST_BODY_LIMIT);
  }

  /** The split sends a chunk too many exactly when its last chunk carries at most as many characters as the
      continuation suffix before it. */
  lemma FewestIff(text: string)
    ensures UsesFewest(Chunks(text), text)
       <==> !(|text| > MAX_TEXT_CHARS
              && (|text| - FIRST_BODY_LIMIT - 1) % CONTINUATION_BODY_LIMIT < |CONTINUATION_SUFFIX|)
  {
    PackedUsesFewest(text);
    var best := Packed(text, true);
    if |text| > MAX_TEXT_CHARS {
      PackedSaves(text);
    }
    assert UsesFewest(Chunks(text), text) <==> |Chunks(text)| <= |best|;
  }
}
