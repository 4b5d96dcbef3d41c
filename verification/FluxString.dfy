/** Flux string literals (ming.py): three whole-string replaces, and a reader that undoes them. */
module FluxString {
  import opened Bytes
  import opened LineProtocol

  /** str.replace of "${" by "\${", over the whole string. */
  function ReplaceInterpolation(s: string): string {
    if |s| < 2 then s
    else if s[0] == '$' && s[1] == '{' then "\\${" + ReplaceInterpolation(s[2..])
    else [s[0]] + ReplaceInterpolation(s[1..])
  }

  /** The body of `flux_string`: backslash, then quote, then interpolation. */
  function FluxChain(value: string): string {
    ReplaceInterpolation(Replace(Replace(value, '\\', "\\\\"), '"', "\\\""))
  }

  predicate NeedsEscape(value: string)
    requires value != ""
  {
    value[0] == '\\' || value[0] == '"' || (value[0] == '$' && |value| > 1 && value[1] == '{')
  }

  /** One character at a time. */
  function FluxEscape(value: string): string {
    if value == "" then ""
    else (if NeedsEscape(value) then ['\\', value[0]] else [value[0]]) + FluxEscape(value[1..])
  }

  lemma {:induction false} ReplaceHead(c: char, rest: string)
    requires c != '$' || rest == "" || rest[0] != '{'
    ensures ReplaceInterpolation([c] + rest) == [c] + ReplaceInterpolation(rest)
  {
    if rest != "" {
      assert ([c] + rest)[1..] == rest && ([c] + rest)[1] == rest[0];
    } else {
      assert [c] + rest == [c] && [c] + ReplaceInterpolation(rest) == [c];
    }
  }

  lemma {:induction false} EscapeHead(value: string)
    ensures var e := Escape(value, "\"");
            (e == "" <==> value == "") && (value != "" ==> (e[0] == '{' <==> value[0] == '{'))
  {
  }

  lemma {:induction false} InterpolationCase(value: string)
    requires |value| >= 2 && value[0] == '$' && value[1] == '{'
    ensures ReplaceInterpolation(Escape(value, "\"")) == "\\$" + ("{" + ReplaceInterpolation(Escape(value[2..], "\"")))
    ensures FluxEscape(value) == "\\$" + ("{" + FluxEscape(value[2..]))
  {
    var rest := Escape(value[2..], "\"");
    assert value[1..][1..] == value[2..];
    assert Escape(value[1..], "\"") == "{" + rest;
    assert Escape(value, "\"") == "${" + rest;
    ReplaceStart(rest);
    EscapeStart(value);
  }

  lemma {:induction false} ReplaceStart(rest: string)
    ensures ReplaceInterpolation("${" + rest) == "\\$" + ("{" + ReplaceInterpolation(rest))
  {
    assert ("${" + rest)[2..] == rest;
  }

  lemma {:induction false} EscapeStart(value: string)
    requires |value| >= 2 && value[0] == '$' && value[1] == '{'
    ensures FluxEscape(value) == "\\$" + ("{" + FluxEscape(value[2..]))
  {
    assert value[1..][1..] == value[2..];
    assert FluxEscape(value[1..]) == "{" + FluxEscape(value[2..]);
  }

  /** The chained replaces are one character-wise escape that looks one character ahead. */
  lemma {:induction false} FluxChainIsEscape(value: string)
    ensures FluxChain(value) == FluxEscape(value)
  {
    FluxFromEscape(value);
    ChainIsEscape(value, "\"");
    assert "\""[..0] == "";
    assert EscapeChain(value, "\"") == Replace(Replace(value, '\\', "\\\\"), '"', "\\\"");
  }

  lemma {:induction false} FluxFromEscape(value: string)
    ensures ReplaceInterpolation(Escape(value, "\"")) == FluxEscape(value)
    decreases |value|
  {
    if value != "" {
      var rest := Escape(value[1..], "\"");
      if value[0] == '\\' || value[0] == '"' {
        FluxFromEscape(value[1..]);
        Regroup(['\\'], [value[0]], rest);
        ReplaceHead('\\', [value[0]] + rest);
        ReplaceHead(value[0], rest);
        Regroup(['\\'], [value[0]], FluxEscape(value[1..]));
      } else if NeedsEscape(value) {
        FluxFromEscape(value[2..]);
        InterpolationCase(value);
      } else {
        FluxFromEscape(value[1..]);
        EscapeHead(value[1..]);
        ReplaceHead(value[0], rest);
      }
    }
  }

  /** Reading up to the closing quote gives the value back. */
  lemma {:induction false} FluxReadsBack(value: string, t: string)
    requires Ends(t, "\"")
    ensures ReadToken(FluxEscape(value) + t, "\"") == Token(value, t)
  {
    if value == "" {
      assert FluxEscape(value) + t == t;
    } else {
      FluxReadsBack(value[1..], t);
      var escaped := NeedsEscape(value);
      TokenStep(value[0], escaped, FluxEscape(value[1..]) + t, "\"");
      Regroup(if escaped then ['\\', value[0]] else [value[0]], FluxEscape(value[1..]), t);
      assert [value[0]] + value[1..] == value;
    }
  }

  /** Some unescaped quote or interpolation start. */
  predicate HasLive(s: string) {
    if s == "" then false
    else if s[0] == '\\' then if |s| == 1 then false else HasLive(s[2..])
    else s[0] == '"' || (s[0] == '$' && |s| > 1 && s[1] == '{') || HasLive(s[1..])
  }

  lemma {:induction false} NothingIsLive(value: string)
    ensures !HasLive(FluxEscape(value))
  {
    if value != "" {
      NothingIsLive(value[1..]);
      var rest := FluxEscape(value[1..]);
      if NeedsEscape(value) {
        assert (['\\', value[0]] + rest)[2..] == rest;
      } else {
        var s := [value[0]] + rest;
        assert s[1..] == rest;
        assert |s| > 1 && s[1] == '{' ==> |value| > 1 && value[1] == '{';
      }
    }
  }

  /** A Flux literal is read back as exactly its value, ends only at its own last quote, and its
      body starts no interpolation. */
  lemma {:induction false} FluxStringIsSafe(value: string, t: string)
    ensures ReadToken(FluxChain(value) + ("\"" + t), "\"") == Token(value, "\"" + t)
    ensures !HasLive(FluxChain(value))
  {
    FluxChainIsEscape(value);
    FluxReadsBack(value, "\"" + t);
    NothingIsLive(value);
  }
}
