/**
 * The `.env` loader run once at startup: every `KEY=value` line sets
 * `KEY` in the process environment unless it is already set.
 */
module DotEnv {
  import opened Wrappers
  import opened Strings

  /** The piece ends in a carriage return. */
  predicate EndsInCarriageReturn(piece: string) {
    piece != [] && piece[|piece| - 1] == '\r'
  }

  /**
   * The lines of the file, split on `\r?\n`: at every line feed, dropping one
   * carriage return right before it. A carriage return ending the last line
   * has no line feed after it and stays.
   */
  function SplitLines(raw: string): (lines: seq<string>)
    ensures |lines| == |Split(raw, '\n')|
    ensures lines[|lines| - 1] == Split(raw, '\n')[|lines| - 1]
    ensures forall i :: 0 <= i < |lines| - 1 ==>
      Split(raw, '\n')[i] == if EndsInCarriageReturn(Split(raw, '\n')[i]) then lines[i] + ['\r'] else lines[i]
  {
    var pieces := Split(raw, '\n');
    seq(|pieces|, i requires 0 <= i < |pieces| =>
      var piece := pieces[i];
      if i < |pieces| - 1 && EndsInCarriageReturn(piece) then piece[..|piece| - 1] else piece)
  }

  /** The value with one layer of matching double or single quotes removed. */
  function Unquote(value: string): (r: string)
  {
    if value != [] && ((value[0] == '"' && value[|value| - 1] == '"') || (value[0] == '\'' && value[|value| - 1] == '\'')) then
      // `value.slice(1, -1)`: empty when the value is the lone quote character
      if |value| >= 2 then value[1..|value| - 1] else ""
    else value
  }

  /** Exactly one layer of quotes is removed, whatever the quoted text is (it may be quoted itself). */
  lemma UnquoteQuoted(x: string, q: char)
    requires q == '"' || q == '\''
    ensures Unquote([q] + x + [q]) == x
  {
    var v := [q] + x + [q];
    assert v[1..|v| - 1] == x;
  }

  /** A value that does not both start and end with the same quote character is left as it is. */
  lemma UnquoteUnquoted(v: string)
    requires v == [] || !((v[0] == '"' || v[0] == '\'') && v[|v| - 1] == v[0])
    ensures Unquote(v) == v
  {
  }

  /**
   * The setting a line carries, before the "already set" check: None for a
   * blank line, a `#` comment, or a line whose first `=` is missing or first.
   */
  function ParseLine(line: string): (r: Option<(string, string)>)
    ensures r.Some? ==> r.value.0 != "" && Trim(r.value.0) == r.value.0 && '=' !in r.value.0
    ensures r.None? <==>
      var t := Trim(line);
      t == "" || t[0] == '#' || IndexOf(t, '=').None? || IndexOf(t, '=') == Some(0)
  {
    ParseTrimmed(Trim(line))
  }

  /** `ParseLine` after the line has been trimmed. */
  function ParseTrimmed(t: string): (r: Option<(string, string)>)
    requires t == [] || !IsJsWhitespace(t[0])
    ensures r.Some? ==> r.value.0 != "" && Trim(r.value.0) == r.value.0 && '=' !in r.value.0
    ensures r.None? <==> t == "" || t[0] == '#' || IndexOf(t, '=').None? || IndexOf(t, '=') == Some(0)
  {
    if t == "" || t[0] == '#' then None
    else
      match IndexOf(t, '=')
      case None => None
      case Some(idx) =>
        if idx == 0 then None
        else
          var key := Trim(t[..idx]);
          // `t` starts with a non-blank character before the `=`, so the key is never empty
          assert key != [] by {
            assert t[..idx][0] == t[0];
            assert !AllWhitespace(t[..idx]);
          }
          TrimIdempotent(t[..idx]);
          Some((key, Unquote(Trim(t[idx + 1..]))))
  }

  /** A carriage return at the end of a line does not change what the line sets. */
  lemma ParseLineIgnoresCarriageReturn(line: string)
    ensures ParseLine(line + ['\r']) == ParseLine(line)
  {
    TrimDropsTrailingWhitespace(line, '\r');
  }

  /** A trimmed line with its first `=` past the start parses to the text around that `=`. */
  lemma ParseTrimmedSetting(t: string, idx: nat)
    requires t != [] && !IsJsWhitespace(t[0]) && t[0] != '#'
    requires 0 < idx && IndexOf(t, '=') == Some(idx)
    ensures ParseTrimmed(t) == Some((Trim(t[..idx]), Unquote(Trim(t[idx + 1..]))))
  {
  }

  /** One step of the loader: a parsed setting is applied only when its key is not set yet. */
  function ApplyLine(env: map<string, string>, line: string): map<string, string>
  {
    ApplySetting(env, ParseLine(line))
  }

  /**
   * The properties `process.env` inherits from `Object.prototype`. Reading
   * one of them gives a function or an object, never `undefined`.
   */
  const InheritedNames: set<string> := {
    "constructor", "__proto__", "__defineGetter__", "__defineSetter__",
    "__lookupGetter__", "__lookupSetter__", "hasOwnProperty", "isPrototypeOf",
    "propertyIsEnumerable", "toLocaleString", "toString", "valueOf"}

  /** `process.env[key] != null`: the variable is set, or the name is inherited. */
  predicate IsSet(env: map<string, string>, key: string) {
    key in env || key in InheritedNames
  }

  /** A parsed setting, if any, added to the environment unless its key reads as set already. */
  function ApplySetting(env: map<string, string>, setting: Option<(string, string)>): map<string, string>
  {
    match setting
    case None => env
    case Some((key, value)) => if IsSet(env, key) then env else env[key := value]
  }

  /** The environment after processing `lines` in order. */
  function ApplyLines(env: map<string, string>, lines: seq<string>): map<string, string>
    decreases |lines|
  {
    if lines == [] then env else ApplyLines(ApplyLine(env, lines[0]), lines[1..])
  }

  /** Lines that parse alike, one for one, load alike. */
  lemma {:induction false} ApplyLinesSameParse(env: map<string, string>, xs: seq<string>, ys: seq<string>)
    requires |xs| == |ys|
    requires forall i :: 0 <= i < |xs| ==> ParseLine(xs[i]) == ParseLine(ys[i])
    ensures ApplyLines(env, xs) == ApplyLines(env, ys)
    decreases |xs|
  {
    if xs != [] {
      assert ApplyLine(env, xs[0]) == ApplyLine(env, ys[0]) by {
        assert ParseLine(xs[0]) == ParseLine(ys[0]);
      }
      forall i | 0 <= i < |xs[1..]| ensures ParseLine(xs[1..][i]) == ParseLine(ys[1..][i]) {
        assert xs[1..][i] == xs[i + 1] && ys[1..][i] == ys[i + 1];
      }
      ApplyLinesSameParse(ApplyLine(env, xs[0]), xs[1..], ys[1..]);
    }
  }

  /**
   * Dropping the carriage returns before the line feeds loads the same
   * settings as splitting on the line feeds alone.
   */
  lemma SplitLinesLoadsSame(env: map<string, string>, raw: string)
    ensures ApplyLines(env, SplitLines(raw)) == ApplyLines(env, Split(raw, '\n'))
  {
    var lines := SplitLines(raw);
    var pieces := Split(raw, '\n');
    forall i | 0 <= i < |lines| ensures ParseLine(lines[i]) == ParseLine(pieces[i]) {
      if i < |lines| - 1 && EndsInCarriageReturn(pieces[i]) {
        ParseLineIgnoresCarriageReturn(lines[i]);
      }
    }
    ApplyLinesSameParse(env, lines, pieces);
  }

  /** Processing the lines from `i` on is processing line `i`, then the rest. */
  lemma ApplyLinesStep(env: map<string, string>, lines: seq<string>, i: nat)
    requires i < |lines|
    ensures ApplyLines(env, lines[i..]) == ApplyLines(ApplyLine(env, lines[i]), lines[i + 1..])
  {
    assert lines[i..][0] == lines[i] && lines[i..][1..] == lines[i + 1..];
  }

  /** The value the first line that sets `key` gives it, if any line does. */
  function FirstSetting(lines: seq<string>, key: string): Option<string>
    decreases |lines|
  {
    if lines == [] then None
    else match ParseLine(lines[0])
      case Some((k, v)) => if k == key then Some(v) else FirstSetting(lines[1..], key)
      case None => FirstSetting(lines[1..], key)
  }

  /** A key already in the environment keeps its value: the file never overrides. */
  lemma {:induction false} ApplyLinesKeepsExisting(env: map<string, string>, lines: seq<string>, key: string)
    requires key in env
    ensures key in ApplyLines(env, lines) && ApplyLines(env, lines)[key] == env[key]
    decreases |lines|
  {
    if lines != [] {
      ApplyLinesKeepsExisting(ApplyLine(env, lines[0]), lines[1..], key);
    }
  }

  /**
   * A key that does not read as set beforehand ends up set exactly when some
   * line sets it, and then to the value of the first such line.
   */
  lemma {:induction false} ApplyLinesFirstWins(env: map<string, string>, lines: seq<string>, key: string)
    requires !IsSet(env, key)
    ensures key in ApplyLines(env, lines) <==> FirstSetting(lines, key).Some?
    ensures key in ApplyLines(env, lines) ==> ApplyLines(env, lines)[key] == FirstSetting(lines, key).value
    decreases |lines|
  {
    if lines != [] {
      var next := ApplyLine(env, lines[0]);
      match ParseLine(lines[0])
      case None =>
        ApplyLinesFirstWins(next, lines[1..], key);
      case Some((k, v)) =>
        if k == key {
          ApplyLinesKeepsExisting(next, lines[1..], key);
        } else {
          ApplyLinesFirstWins(next, lines[1..], key);
        }
    }
  }

  /** Lines that carry no setting (blank, comments, no `=`, leading `=`) leave the environment unchanged. */
  lemma {:induction false} SkippedLinesChangeNothing(env: map<string, string>, lines: seq<string>)
    requires forall i :: 0 <= i < |lines| ==> ParseLine(lines[i]).None?
    ensures ApplyLines(env, lines) == env
    decreases |lines|
  {
    if lines != [] {
      assert ParseLine(lines[0]).None?;
      SkippedLinesChangeNothing(env, lines[1..]);
    }
  }

  /** The loader only adds keys: the result's keys are the old ones plus the non-inherited keys some line names. */
  lemma {:induction false} ApplyLinesKeys(env: map<string, string>, lines: seq<string>, key: string)
    ensures key in ApplyLines(env, lines) <==> key in env || (key !in InheritedNames && FirstSetting(lines, key).Some?)
    decreases |lines|
  {
    if key in env {
      ApplyLinesKeepsExisting(env, lines, key);
    } else if key in InheritedNames {
      ApplyLinesInheritedSkipped(env, lines, key);
    } else {
      ApplyLinesFirstWins(env, lines, key);
    }
  }

  /** A line setting an inherited name such as `constructor` is skipped: the name reads as set. */
  lemma {:induction false} ApplyLinesInheritedSkipped(env: map<string, string>, lines: seq<string>, key: string)
    requires key in InheritedNames && key !in env
    ensures key !in ApplyLines(env, lines)
    decreases |lines|
  {
    if lines != [] {
      ApplyLinesInheritedSkipped(ApplyLine(env, lines[0]), lines[1..], key);
    }
  }

  /** A `KEY=value` line with a plain key and a quoted value parses to the key and the unquoted value. */
  lemma ParseQuotedLine(key: string, x: string, q: char)
    requires key != "" && '=' !in key && key[0] != '#'
    requires !IsJsWhitespace(key[0]) && !IsJsWhitespace(key[|key| - 1])
    requires q == '"' || q == '\''
    ensures ParseLine(key + "=" + [q] + x + [q]) == Some((key, x))
  {
    var v := [q] + x + [q];
    var line := key + ['='] + v;
    AroundEquals(key, v);
    assert key + "=" + [q] + x + [q] == line;
    TrimOfTrimmed(line);
    IndexOfAfter(key, '=', v);
    TrimOfTrimmed(key);
    TrimOfTrimmed(v);
    UnquoteQuoted(x, q);
    ParseTrimmedSetting(line, |key|);
  }

  /** The text on either side of the `=` in `key=v`. */
  lemma AroundEquals(key: string, v: string)
    requires key != [] && v != []
    ensures (key + ['='] + v)[0] == key[0]
    ensures (key + ['='] + v)[|key + ['='] + v| - 1] == v[|v| - 1]
    ensures (key + ['='] + v)[..|key|] == key
    ensures (key + ['='] + v)[|key| + 1..] == v
  {
  }

  /** The environment after `loadDotEnv`, given the file's content (None when there is no file). */
  function Loaded(env: map<string, string>, file: Option<string>): map<string, string>
  {
    match file
    case None => env
    case Some(text) => ApplyLines(env, SplitLines(text))
  }

  /** Loading never changes a key already set. */
  lemma LoadedKeepsExisting(env: map<string, string>, file: Option<string>, key: string)
    requires key in env
    ensures key in Loaded(env, file) && Loaded(env, file)[key] == env[key]
  {
    if file.Some? {
      ApplyLinesKeepsExisting(env, SplitLines(file.value), key);
    }
  }

  /** The process environment, which the loader updates in place. */
  class Environment {
    var vars: map<string, string>

    constructor (initial: map<string, string>)
      ensures vars == initial
    {
      vars := initial;
    }

    /** The body of the loader's loop for one line: set the key unless it is already set. */
    method ApplyToEnvironment(line: string)
      modifies this
      ensures vars == ApplyLine(old(vars), line)
    {
      SetUnlessPresent(ParseLine(line));
    }

    /** Set the setting's key to its value, unless there is no setting or the key reads as set already. */
    method SetUnlessPresent(setting: Option<(string, string)>)
      modifies this
      ensures vars == ApplySetting(old(vars), setting)
    {
      match setting {
        case None =>
        case Some((key, value)) =>
          if key !in vars && key !in InheritedNames {
            vars := vars[key := value];
          }
      }
    }

    /**
     * `loadDotEnv`: `file` is the content of the `.env` file, None when it
     * does not exist. Keys already set keep their values.
     */
    method LoadDotEnv(file: Option<string>)
      modifies this
      ensures vars == Loaded(old(vars), file)
      ensures forall k :: k in old(vars) ==> k in vars && vars[k] == old(vars)[k]
    {
      ghost var initial := vars;
      if file.Some? {
        var lines := SplitLines(file.value);
        var i := 0;
        assert lines[i..] == lines;
        while i < |lines|
          invariant 0 <= i <= |lines|
          invariant ApplyLines(vars, lines[i..]) == ApplyLines(initial, lines)
        {
          ghost var before := vars;
          ApplyToEnvironment(lines[i]);
          ApplyLinesStep(before, lines, i);
          i := i + 1;
        }
        assert lines[i..] == [];
      }
      forall k | k in initial ensures k in vars && vars[k] == initial[k] {
        LoadedKeepsExisting(initial, file, k);
      }
    }
  }
}
