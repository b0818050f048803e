/**
 * `readBody`: the request body is collected chunk by chunk as text, and
 * the read is rejected as soon as the text collected so far is longer
 * than the limit (measured, as JavaScript strings are, in UTF-16 code units).
 */
module Body {
  import opened Json

  /** The default limit on a request body, in UTF-16 code units. */
  const BodyLimit: nat := 1_000_000

  /** The error `readBody` rejects with once the body is too long. */
  const BodyTooLarge := JsError("Error", "body_too_large")

  /** JavaScript's `s.length`: characters outside the Basic Multilingual Plane count twice. */
  function Utf16Length(s: string): (n: nat)
    ensures |s| <= n <= 2 * |s|
  {
    if s == [] then 0
    else Utf16Length(s[..|s| - 1]) + (if s[|s| - 1] as int > 0xFFFF then 2 else 1)
  }

  lemma {:induction false} Utf16LengthAppend(a: string, b: string)
    ensures Utf16Length(a + b) == Utf16Length(a) + Utf16Length(b)
    decreases |b|
  {
    if b != [] {
      var init := b[..|b| - 1];
      assert (a + b)[..|a + b| - 1] == a + init;
      Utf16LengthAppend(a, init);
    } else {
      assert a + b == a;
    }
  }

  /** The text of the chunks one after the other: `raw += chunk` for each chunk. */
  function Concat(chunks: seq<string>): string
  {
    if chunks == [] then "" else Concat(chunks[..|chunks| - 1]) + chunks[|chunks| - 1]
  }

  lemma {:induction false} ConcatAppend(a: seq<string>, b: seq<string>)
    ensures Concat(a + b) == Concat(a) + Concat(b)
    decreases |b|
  {
    if b != [] {
      var init := b[..|b| - 1];
      assert (a + b)[..|a + b| - 1] == a + init;
      ConcatAppend(a, init);
    } else {
      assert a + b == a;
    }
  }

  /** Collecting more chunks never makes the text shorter. */
  lemma ConcatPrefixLength(chunks: seq<string>, i: nat)
    requires i <= |chunks|
    ensures Utf16Length(Concat(chunks[..i])) <= Utf16Length(Concat(chunks))
  {
    assert chunks == chunks[..i] + chunks[i..];
    ConcatAppend(chunks[..i], chunks[i..]);
    Utf16LengthAppend(Concat(chunks[..i]), Concat(chunks[i..]));
  }

  /** How the request stream finishes after its data: the `end` event, or an `error` event. */
  datatype StreamEnd = Ended | Errored(error: JsError)

  /** How the promise `readBody` returns settles. */
  datatype BodyResult = Complete(raw: string) | Rejected(error: JsError)

  /** What `readBody` settles with, judged on the whole stream. */
  function ReadBodySpec(chunks: seq<string>, end: StreamEnd, limit: nat): BodyResult
  {
    if Utf16Length(Concat(chunks)) > limit then Rejected(BodyTooLarge)
    else match end
      case Ended => Complete(Concat(chunks))
      case Errored(e) => Rejected(e)
  }

  /** The body is delivered exactly when the stream ends normally within the limit, and it is all the chunks' text. */
  lemma ReadBodyCompletes(chunks: seq<string>, end: StreamEnd, limit: nat)
    ensures ReadBodySpec(chunks, end, limit).Complete? <==> end == Ended && Utf16Length(Concat(chunks)) <= limit
    ensures ReadBodySpec(chunks, end, limit).Complete? ==>
      ReadBodySpec(chunks, end, limit).raw == Concat(chunks) &&
      Utf16Length(ReadBodySpec(chunks, end, limit).raw) <= limit
  {
  }

  /** A body over the limit is rejected as too large even when the stream would later fail. */
  lemma TooLargeWins(chunks: seq<string>, e: JsError, limit: nat)
    requires Utf16Length(Concat(chunks)) > limit
    ensures ReadBodySpec(chunks, Errored(e), limit) == ReadBodySpec(chunks, Ended, limit) == Rejected(BodyTooLarge)
  {
  }

  /**
   * `readBody(req, limit)`. The stream's chunks and the way it ends are
   * parameters; `consumed` is how many chunks were taken before the request
   * was destroyed (all of them when it was not).
   */
  method ReadBody(chunks: seq<string>, end: StreamEnd, limit: nat) returns (r: BodyResult, consumed: nat)
    ensures r == ReadBodySpec(chunks, end, limit)
    ensures consumed <= |chunks|
    ensures Utf16Length(Concat(chunks)) <= limit ==> consumed == |chunks|
    ensures Utf16Length(Concat(chunks)) > limit ==>
      consumed > 0 &&
      Utf16Length(Concat(chunks[..consumed])) > limit &&
      Utf16Length(Concat(chunks[..consumed - 1])) <= limit
  {
    var raw := "";
    var length := 0;
    var i := 0;
    while i < |chunks|
      invariant i <= |chunks|
      invariant raw == Concat(chunks[..i])
      invariant length == Utf16Length(raw) <= limit
    {
      Utf16LengthAppend(raw, chunks[i]);
      raw := raw + chunks[i];
      length := length + Utf16Length(chunks[i]);
      i := i + 1;
      assert chunks[..i][..i - 1] == chunks[..i - 1];
      if length > limit {
        ConcatPrefixLength(chunks, i);
        return Rejected(BodyTooLarge), i;
      }
    }
    assert chunks[..i] == chunks;
    consumed := i;
    match end
    case Ended => r := Complete(raw);
    case Errored(e) => r := Rejected(e);
  }
}
