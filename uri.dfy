/**
 * `decodeURIComponent`: every `%XX` escape, or run of escapes forming one
 * UTF-8 encoded code point, is replaced by that code point; a malformed
 * escape or invalid UTF-8 makes the whole call fail (JavaScript's URIError).
 */
module Uri {
  import opened Wrappers

  function HexValue(c: char): (r: Option<nat>)
    ensures r.Some? ==> r.value < 16
  {
    if '0' <= c <= '9' then Some(c as int - '0' as int)
    else if 'a' <= c <= 'f' then Some(c as int - 'a' as int + 10)
    else if 'A' <= c <= 'F' then Some(c as int - 'A' as int + 10)
    else None
  }

  /** The byte written as `%XX` at position `k` of `s`, if there is such an escape there. */
  function EscapedByte(s: string, k: nat): (r: Option<nat>)
    ensures r.Some? ==> r.value < 256 && k + 3 <= |s| && s[k] == '%'
  {
    if k + 3 <= |s| && s[k] == '%' then
      match (HexValue(s[k + 1]), HexValue(s[k + 2]))
      case (Some(h), Some(l)) => Some(16 * h + l)
      case _ => None
    else None
  }

  /** The low six bits of the continuation bytes (`10xxxxxx`) escaped at `k`, `k + 3`, ... */
  function ContinuationBits(s: string, k: nat, count: nat): (r: Option<seq<nat>>)
    ensures r.Some? ==> |r.value| == count
    ensures r.Some? && count > 0 ==> k + 3 * count <= |s|
    ensures r.Some? ==> forall i :: 0 <= i < count ==> r.value[i] < 64
    decreases count
  {
    if count == 0 then Some([])
    else
      match EscapedByte(s, k)
      case None => None
      case Some(b) =>
        if b < 0x80 || b >= 0xC0 then None
        else
          match ContinuationBits(s, k + 3, count - 1)
          case None => None
          case Some(rest) => Some([b - 0x80] + rest)
  }

  /** How many bytes a UTF-8 sequence with this leading byte has; 1 or 5 mark an invalid leading byte. */
  function SequenceLength(b: nat): (n: nat)
    requires b < 256
    ensures 1 <= n <= 5
  {
    if b < 0x80 then 1
    else if b < 0xC0 then 5  // a continuation byte cannot start a sequence
    else if b < 0xE0 then 2
    else if b < 0xF0 then 3
    else if b < 0xF8 then 4
    else 5
  }

  /** A Unicode scalar value: a code point that is not a surrogate. */
  predicate IsScalar(v: int) {
    (0 <= v < 0xD800) || (0xE000 <= v <= 0x10FFFF)
  }

  /**
   * The code point a multi-byte sequence encodes, if it is valid UTF-8:
   * neither overlong, nor a surrogate, nor above U+10FFFF.
   */
  function MultiByteScalar(n: nat, lead: nat, bits: seq<nat>): (r: Option<char>)
    requires 2 <= n <= 4 && |bits| == n - 1
    requires 0xC0 <= lead < 0xF8
    requires forall i :: 0 <= i < |bits| ==> bits[i] < 64
  {
    var v :=
      if n == 2 then (lead - 0xC0) * 64 + bits[0]
      else if n == 3 then (lead - 0xE0) * 4096 + bits[0] * 64 + bits[1]
      else (lead - 0xF0) * 262144 + bits[0] * 4096 + bits[1] * 64 + bits[2];
    var minimum := if n == 2 then 0x80 else if n == 3 then 0x800 else 0x10000;
    if v < minimum || !IsScalar(v) then None else Some(v as char)
  }

  /** The character that the escape sequence starting at the `%` at position `k` denotes, and where it ends. */
  function DecodeEscape(s: string, k: nat): (r: Option<(char, nat)>)
    ensures r.Some? ==> k + 3 <= r.value.1 <= |s|
  {
    match EscapedByte(s, k)
    case None => None
    case Some(lead) =>
      var n := SequenceLength(lead);
      if n == 1 then Some((lead as char, k + 3))
      else if n == 5 then None
      else
        match ContinuationBits(s, k + 3, n - 1)
        case None => None
        case Some(bits) =>
          match MultiByteScalar(n, lead, bits)
          case None => None
          case Some(c) => Some((c, k + 3 * n))
  }

  /** `decodeURIComponent(s)`, None where JavaScript throws URIError. */
  function DecodeUriComponent(s: string): (r: Option<string>)
    ensures '%' !in s ==> r == Some(s)
    ensures r.Some? ==> |r.value| <= |s|
    decreases |s|
  {
    if s == [] then Some([])
    else if s[0] != '%' then
      assert s == [s[0]] + s[1..];
      match DecodeUriComponent(s[1..])
      case None => None
      case Some(t) => Some([s[0]] + t)
    else
      match DecodeEscape(s, 0)
      case None => None
      case Some((c, next)) =>
        match DecodeUriComponent(s[next..])
        case None => None
        case Some(t) => Some([c] + t)
  }

  /** A `%` that is not followed by two hexadecimal digits makes decoding fail, wherever it stands after text that decodes. */
  lemma MalformedEscapeFails(p: string, q: string)
    requires DecodeUriComponent(p).Some?
    requires |q| < 2 || HexValue(q[0]).None? || HexValue(q[1]).None?
    ensures DecodeUriComponent(p + "%" + q) == None
  {
    var t := "%" + q;
    assert EscapedByte(t, 0).None?;
    assert p + "%" + q == p + t;
    DecodeAppend(p, t);
  }

  /** Decoding text that decodes, followed by more text, decodes the two parts separately. */
  lemma {:induction false} DecodeAppend(p: string, t: string)
    requires DecodeUriComponent(p).Some?
    ensures DecodeUriComponent(p + t) == Joined(DecodeUriComponent(p).value, DecodeUriComponent(t))
    decreases |p|, 2
  {
    if p == [] {
      assert p + t == t;
      JoinedEmpty(DecodeUriComponent(t));
    } else if p[0] != '%' {
      DecodeAppendPlainCase(p, t);
    } else {
      DecodeAppendEscapeCase(p, t);
    }
  }

  /** `DecodeAppend` when `p` starts with a plain character. */
  lemma {:induction false} DecodeAppendPlainCase(p: string, t: string)
    requires p != [] && p[0] != '%' && DecodeUriComponent(p).Some?
    ensures DecodeUriComponent(p + t) == Joined(DecodeUriComponent(p).value, DecodeUriComponent(t))
    decreases |p|, 1
  {
    ConcatDrop(p, t, 1);
    DecodeAppendPlain(p, t, p + t);
  }

  /** `DecodeAppend` when `p` starts with a well-formed escape sequence. */
  lemma {:induction false} DecodeAppendEscapeCase(p: string, t: string)
    requires p != [] && p[0] == '%' && DecodeUriComponent(p).Some?
    ensures DecodeUriComponent(p + t) == Joined(DecodeUriComponent(p).value, DecodeUriComponent(t))
    decreases |p|, 1
  {
    assert DecodeEscape(p, 0).Some?;
    DecodeEscapeLocal(p, t, 0);
    ConcatDrop(p, t, DecodeEscape(p, 0).value.1);
    DecodeAppendEscape(p, t, p + t);
  }

  /** Dropping a prefix of `p` from `p + t`. */
  lemma ConcatDrop(p: string, t: string, k: nat)
    requires k <= |p|
    ensures |p + t| == |p| + |t|
    ensures k < |p| ==> (p + t)[k] == p[k]
    ensures (p + t)[k..] == p[k..] + t
  {
  }

  /** The step of `DecodeAppend` for a plain first character; `s` is `p + t`. */
  lemma {:induction false} DecodeAppendPlain(p: string, t: string, s: string)
    requires p != [] && p[0] != '%' && DecodeUriComponent(p).Some?
    requires s != [] && s[0] == p[0] && s[1..] == p[1..] + t
    ensures DecodeUriComponent(s) == Joined(DecodeUriComponent(p).value, DecodeUriComponent(t))
    decreases |p|, 0
  {
    DecodePlainStep(p);
    DecodeAppend(p[1..], t);
    DecodePlainStep(s);
    JoinedAssoc([p[0]], DecodeUriComponent(p[1..]).value, DecodeUriComponent(t));
  }

  /** The step of `DecodeAppend` for a well-formed escape sequence first; `s` is `p + t`. */
  lemma {:induction false} DecodeAppendEscape(p: string, t: string, s: string)
    requires p != [] && p[0] == '%' && DecodeEscape(p, 0).Some? && DecodeUriComponent(p).Some?
    requires s != [] && s[0] == '%' && DecodeEscape(s, 0) == DecodeEscape(p, 0)
    requires s[DecodeEscape(p, 0).value.1..] == p[DecodeEscape(p, 0).value.1..] + t
    ensures DecodeUriComponent(s) == Joined(DecodeUriComponent(p).value, DecodeUriComponent(t))
    decreases |p|, 0
  {
    var (c, next) := DecodeEscape(p, 0).value;
    DecodeEscapeStep(p);
    DecodeAppend(p[next..], t);
    DecodeEscapeStep(s);
    JoinedAssoc([c], DecodeUriComponent(p[next..]).value, DecodeUriComponent(t));
  }

  /** `d` in front of the decoded text, or failure when decoding failed. */
  function Joined(d: string, o: Option<string>): Option<string>
  {
    match o
    case None => None
    case Some(x) => Some(d + x)
  }

  /** Nothing in front changes nothing. */
  lemma JoinedEmpty(o: Option<string>)
    ensures Joined([], o) == o
  {
    if o.Some? {
      assert [] + o.value == o.value;
    }
  }

  /** Putting `a` in front of `b` in front is putting `a + b` in front. */
  lemma JoinedAssoc(a: string, b: string, o: Option<string>)
    ensures Joined(a, Joined(b, o)) == Joined(a + b, o)
  {
    if o.Some? {
      assert a + (b + o.value) == a + b + o.value;
    }
  }

  /** Decoding a string that starts with a plain character. */
  lemma DecodePlainStep(s: string)
    requires s != [] && s[0] != '%'
    ensures DecodeUriComponent(s) == Joined([s[0]], DecodeUriComponent(s[1..]))
  {
  }

  /** Decoding a string that starts with a well-formed escape sequence. */
  lemma DecodeEscapeStep(s: string)
    requires s != [] && s[0] == '%' && DecodeEscape(s, 0).Some?
    ensures DecodeUriComponent(s) ==
      Joined([DecodeEscape(s, 0).value.0], DecodeUriComponent(s[DecodeEscape(s, 0).value.1..]))
  {
  }

  /** An escape read at `k` in `s` is read the same once more text follows `s`. */
  lemma EscapedByteLocal(s: string, t: string, k: nat)
    requires k + 3 <= |s|
    ensures EscapedByte(s + t, k) == EscapedByte(s, k)
  {
    assert (s + t)[k] == s[k] && (s + t)[k + 1] == s[k + 1] && (s + t)[k + 2] == s[k + 2];
  }

  /** Continuation bytes read in `s` are read the same once more text follows `s`. */
  lemma {:induction false} ContinuationBitsLocal(s: string, t: string, k: nat, count: nat)
    requires ContinuationBits(s, k, count).Some?
    ensures ContinuationBits(s + t, k, count) == ContinuationBits(s, k, count)
    decreases count
  {
    if count > 0 {
      EscapedByteLocal(s, t, k);
      ContinuationBitsLocal(s, t, k + 3, count - 1);
    }
  }

  /** An escape sequence decoded in `s` decodes the same once more text follows `s`. */
  lemma DecodeEscapeLocal(s: string, t: string, k: nat)
    requires DecodeEscape(s, k).Some?
    ensures DecodeEscape(s + t, k) == DecodeEscape(s, k)
  {
    EscapedByteLocal(s, t, k);
    var lead := EscapedByte(s, k).value;
    var n := SequenceLength(lead);
    if 2 <= n <= 4 {
      ContinuationBitsLocal(s, t, k + 3, n - 1);
    }
  }

  /** An escaped ASCII byte decodes to that character. */
  lemma AsciiEscape(h: char, l: char, rest: string)
    requires HexValue(h).Some? && HexValue(l).Some?
    requires 16 * HexValue(h).value + HexValue(l).value < 0x80
    requires '%' !in rest
    ensures DecodeUriComponent(['%', h, l] + rest) ==
      Some([(16 * HexValue(h).value + HexValue(l).value) as char] + rest)
  {
    var s := ['%', h, l] + rest;
    assert s[3..] == rest;
  }
}
