/**
 * The startup configuration read from the environment once `.env` has been
 * loaded, and the allow-list of CORS origins parsed from `ALLOWED_ORIGINS`.
 */
module ServerConfig {
  import opened Wrappers
  import opened Strings
  import DotEnv

  const DefaultApiVersion := "190410"
  const DefaultBaseUrl := "https://wsapi.simsimi.com"
  const DefaultAllowedOrigins := "*"

  /** The configuration every request reads; it is never changed after startup. */
  datatype Config = Config(
    apiKey: string,
    apiVersion: string,
    baseUrl: string,
    allowedOrigins: seq<string>)

  /** The pieces trimmed, with the ones that trim to nothing dropped (`.map(trim).filter(Boolean)`). */
  function TrimNonEmpty(pieces: seq<string>): (r: seq<string>)
    ensures |r| <= |pieces|
    ensures forall i :: 0 <= i < |r| ==> r[i] != "" && Trim(r[i]) == r[i]
    ensures forall e :: e in r <==> e != "" && exists p :: p in pieces && Trim(p) == e
  {
    if pieces == [] then []
    else
      var t := Trim(pieces[0]);
      var rest := TrimNonEmpty(pieces[1..]);
      TrimIdempotent(pieces[0]);
      MapFilterCons(pieces, Trim, rest);
      if t == "" then rest else [t] + rest
  }

  /** One step of `.map(f).filter(Boolean)`, stated as membership: the first piece's image joins if it is not empty. */
  lemma MapFilterCons(pieces: seq<string>, f: string -> string, rest: seq<string>)
    requires pieces != []
    requires forall e :: e in rest <==> e != "" && exists p :: p in pieces[1..] && f(p) == e
    ensures var r := if f(pieces[0]) == "" then rest else [f(pieces[0])] + rest;
      forall e :: e in r <==> e != "" && exists p :: p in pieces && f(p) == e
  {
    var t := f(pieces[0]);
    var r := if t == "" then rest else [t] + rest;
    forall e ensures e in r <==> e != "" && exists p :: p in pieces && f(p) == e {
      if e in rest {
        var p :| p in pieces[1..] && f(p) == e;
        assert p in pieces;
      } else if e in r {
        assert e == t && pieces[0] in pieces;
      }
      if e != "" && exists p :: p in pieces && f(p) == e {
        var p :| p in pieces && f(p) == e;
        if p != pieces[0] {
          assert pieces == [pieces[0]] + pieces[1..];
          assert p in pieces[1..];
        }
      }
    }
  }

  /** The `ALLOWED_ORIGINS` value split on commas, each entry trimmed, empty entries dropped. */
  function ParseAllowList(s: string): (r: seq<string>)
    ensures forall i :: 0 <= i < |r| ==> r[i] != "" && Trim(r[i]) == r[i] && ',' !in r[i]
    ensures forall e :: e in r <==> e != "" && exists p :: p in Split(s, ',') && Trim(p) == e
  {
    var pieces := Split(s, ',');
    TrimNonEmptyAvoids(pieces, ',');
    TrimNonEmpty(pieces)
  }

  /** Trimming keeps only characters of the pieces, so a character no piece has is in no entry. */
  lemma {:induction false} TrimNonEmptyAvoids(pieces: seq<string>, c: char)
    requires forall i :: 0 <= i < |pieces| ==> c !in pieces[i]
    ensures forall i :: 0 <= i < |TrimNonEmpty(pieces)| ==> c !in TrimNonEmpty(pieces)[i]
  {
    if pieces != [] {
      var p := pieces[0];
      TrimNonEmptyAvoids(pieces[1..], c);
      TrimIsInfix(p);
      assert c !in Trim(p) by {
        forall k | 0 <= k < |Trim(p)| ensures Trim(p)[k] != c {
          assert Trim(p)[k] == p[LeadingWhitespace(p) + k];
        }
      }
    }
  }

  /** A comma-free entry surrounded by blanks is parsed to the bare entry. */
  lemma ParseSingleEntry(e: string)
    requires e != "" && ',' !in e && Trim(e) == e
    ensures ParseAllowList(e) == [e]
  {
    SplitNoSeparator(e, ',');
    assert ParseAllowList(e) == TrimNonEmpty([e]);
    assert [e][1..] == [];
  }

  /** `process.env[name] || default`: an unset or empty variable takes the default. */
  function Setting(env: map<string, string>, name: string, default: string): (r: string)
    ensures name in env && env[name] != "" ==> r == env[name]
    ensures name !in env || env[name] == "" ==> r == default
  {
    if name in env && env[name] != "" then env[name] else default
  }

  /** The configuration the module-level constants compute from the environment. */
  function ConfigFromEnv(env: map<string, string>): (c: Config)
    ensures forall i :: 0 <= i < |c.allowedOrigins| ==> c.allowedOrigins[i] != "" && Trim(c.allowedOrigins[i]) == c.allowedOrigins[i]
    ensures c.apiVersion != "" && c.baseUrl != ""
  {
    Config(
      Setting(env, "SIMSIMI_API_KEY", ""),
      Setting(env, "SIMSIMI_API_VERSION", DefaultApiVersion),
      Setting(env, "SIMSIMI_API_BASE_URL", DefaultBaseUrl),
      ParseAllowList(Setting(env, "ALLOWED_ORIGINS", DefaultAllowedOrigins)))
  }

  /** With nothing configured the key is empty, the defaults apply and every origin is allowed. */
  lemma DefaultConfig(env: map<string, string>)
    requires "SIMSIMI_API_KEY" !in env && "SIMSIMI_API_VERSION" !in env
    requires "SIMSIMI_API_BASE_URL" !in env && "ALLOWED_ORIGINS" !in env
    ensures ConfigFromEnv(env) == Config("", DefaultApiVersion, DefaultBaseUrl, ["*"])
  {
    ParseSingleEntry("*");
  }

  /** An unset or empty `ALLOWED_ORIGINS` gives the wildcard allow-list. */
  lemma DefaultAllowList(env: map<string, string>)
    requires "ALLOWED_ORIGINS" !in env || env["ALLOWED_ORIGINS"] == ""
    ensures ConfigFromEnv(env).allowedOrigins == ["*"]
  {
    ParseSingleEntry("*");
  }

  /**
   * Startup: load `.env` into the ambient environment, then read the
   * configuration. A setting present (and non-empty) in the ambient
   * environment wins over the file.
   */
  method Startup(ambient: map<string, string>, dotEnvFile: Option<string>) returns (c: Config)
    ensures dotEnvFile.None? ==> c == ConfigFromEnv(ambient)
    ensures dotEnvFile.Some? ==> c == ConfigFromEnv(DotEnv.ApplyLines(ambient, DotEnv.SplitLines(dotEnvFile.value)))
    ensures "SIMSIMI_API_KEY" in ambient && ambient["SIMSIMI_API_KEY"] != "" ==> c.apiKey == ambient["SIMSIMI_API_KEY"]
    ensures "ALLOWED_ORIGINS" in ambient ==> c.allowedOrigins == ParseAllowList(Setting(ambient, "ALLOWED_ORIGINS", DefaultAllowedOrigins))
  {
    var env := new DotEnv.Environment(ambient);
    env.LoadDotEnv(dotEnvFile);
    c := ConfigFromEnv(env.vars);
  }
}
