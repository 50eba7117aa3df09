/** The {env} placeholder in namespaces and environment values. */
module Placeholders {

  const TOKEN := "{env}"

  predicate AtToken(s: string) {
    |TOKEN| <= |s| && s[..|TOKEN|] == TOKEN
  }

  /** Replaces every {env}, left to right. */
  function ApplyEnv(pattern: string, env: string): string
    decreases |pattern|
  {
    if pattern == [] then []
    else if AtToken(pattern) then env + ApplyEnv(pattern[|TOKEN|..], env)
    else [pattern[0]] + ApplyEnv(pattern[1..], env)
  }

  predicate IsBrace(c: char) {
    c == '{' || c == '}'
  }

  predicate HasBrace(s: string) {
    exists i | 0 <= i < |s| :: IsBrace(s[i])
  }

  /** The namespace a pattern resolves to is usable: no placeholder is left over and it is not empty. */
  predicate NamespaceOk(pattern: string, env: string) {
    !HasBrace(ApplyEnv(pattern, env)) && ApplyEnv(pattern, env) != []
  }

  // ---------- what replacing means ----------

  function Join(parts: seq<string>, separator: string): string
    requires parts != []
  {
    if |parts| == 1 then parts[0] else parts[0] + separator + Join(parts[1..], separator)
  }

  function Parts(pattern: string): (r: seq<string>)
    ensures r != []
    decreases |pattern|
  {
    if pattern == [] then [[]]
    else if AtToken(pattern) then [[]] + Parts(pattern[|TOKEN|..])
    else var rest := Parts(pattern[1..]); [[pattern[0]] + rest[0]] + rest[1..]
  }

  lemma JoinToken(parts: seq<string>, separator: string)
    requires parts != []
    ensures Join([[]] + parts, separator) == separator + Join(parts, separator)
  {
    assert ([[]] + parts)[1..] == parts;
    assert [] + separator == separator;
  }

  lemma JoinCons(c: char, parts: seq<string>, separator: string)
    requires parts != []
    ensures Join([[c] + parts[0]] + parts[1..], separator) == [c] + Join(parts, separator)
  {
    var first := [c] + parts[0];
    assert ([first] + parts[1..])[1..] == parts[1..];
    if |parts| > 1 {
      var rest := separator + Join(parts[1..], separator);
      assert first + rest == [c] + (parts[0] + rest);
      assert first + separator + Join(parts[1..], separator) == first + rest;
      assert parts[0] + separator + Join(parts[1..], separator) == parts[0] + rest;
    }
  }

  /** The pattern is its parts joined by {env}; resolving it joins the same parts by the environment name. */
  lemma {:induction false} ReplacesEveryToken(pattern: string, env: string)
    ensures Join(Parts(pattern), TOKEN) == pattern
    ensures Join(Parts(pattern), env) == ApplyEnv(pattern, env)
    decreases |pattern|
  {
    if pattern == [] {
    } else if AtToken(pattern) {
      var rest := pattern[|TOKEN|..];
      ReplacesEveryToken(rest, env);
      JoinToken(Parts(rest), TOKEN);
      JoinToken(Parts(rest), env);
      assert pattern == TOKEN + rest;
    } else {
      var rest := Parts(pattern[1..]);
      ReplacesEveryToken(pattern[1..], env);
      JoinCons(pattern[0], rest, TOKEN);
      JoinCons(pattern[0], rest, env);
    }
  }

  lemma {:induction false} FirstPartLeads(pattern: string)
    ensures Parts(pattern)[0] <= pattern
    decreases |pattern|
  {
    if pattern != [] && !AtToken(pattern) {
      FirstPartLeads(pattern[1..]);
      assert pattern == [pattern[0]] + pattern[1..];
    }
  }

  /** No part holds another {env}. */
  lemma {:induction false} PartsHoldNoToken(pattern: string, k: nat, at: nat)
    requires k < |Parts(pattern)| && at <= |Parts(pattern)[k]|
    ensures !AtToken(Parts(pattern)[k][at..])
    decreases |pattern|
  {
    if pattern == [] {
    } else if AtToken(pattern) {
      if k > 0 { PartsHoldNoToken(pattern[|TOKEN|..], k - 1, at); }
    } else {
      var rest := Parts(pattern[1..]);
      if k > 0 {
        PartsHoldNoToken(pattern[1..], k, at);
      } else if at > 0 {
        PartsHoldNoToken(pattern[1..], 0, at - 1);
        assert ([pattern[0]] + rest[0])[at..] == rest[0][at - 1..];
      } else {
        FirstPartLeads(pattern);
        var part := Parts(pattern)[0];
        assert part[0..] == part;
        assert |TOKEN| <= |part| ==> part[..|TOKEN|] == pattern[..|TOKEN|];
      }
    }
  }

  // ---------- when two environments get the same verdict ----------

  datatype EnvKind = Plain | Empty | Braced

  function Kind(env: string): EnvKind {
    if HasBrace(env) then Braced else if env == [] then Empty else Plain
  }

  lemma BraceInSum(a: string, b: string)
    ensures HasBrace(a + b) <==> HasBrace(a) || HasBrace(b)
  {
    var s := a + b;
    forall i | 0 <= i < |a| && IsBrace(a[i]) ensures HasBrace(s) { assert s[i] == a[i]; }
    forall i | 0 <= i < |b| && IsBrace(b[i]) ensures HasBrace(s) { assert s[|a| + i] == b[i]; }
  }

  /** Substitution by brace-free names leaves the residual braces alone; a braced name only ever puts braces
      where the pattern already had them. */
  lemma {:induction false} ResidualBraces(pattern: string, e1: string, e2: string)
    requires HasBrace(e1) == HasBrace(e2)
    ensures HasBrace(ApplyEnv(pattern, e1)) == HasBrace(ApplyEnv(pattern, e2))
    decreases |pattern|
  {
    if pattern == [] {
    } else if AtToken(pattern) {
      var rest := pattern[|TOKEN|..];
      ResidualBraces(rest, e1, e2);
      BraceInSum(e1, ApplyEnv(rest, e1));
      BraceInSum(e2, ApplyEnv(rest, e2));
    } else {
      ResidualBraces(pattern[1..], e1, e2);
      BraceInSum([pattern[0]], ApplyEnv(pattern[1..], e1));
      BraceInSum([pattern[0]], ApplyEnv(pattern[1..], e2));
    }
  }

  lemma SameKindSameVerdict(pattern: string, e1: string, e2: string)
    requires Kind(e1) == Kind(e2)
    ensures NamespaceOk(pattern, e1) == NamespaceOk(pattern, e2)
  {
    ResidualBraces(pattern, e1, e2);
  }

  lemma TokenAlone(env: string)
    ensures ApplyEnv(TOKEN, env) == env
    ensures ApplyEnv("a" + TOKEN, env) == "a" + env
  {
    assert ApplyEnv(TOKEN[|TOKEN|..], env) == [];
    assert env + [] == env;
    var tailed := "a" + TOKEN;
    assert tailed[0] == 'a' && !AtToken(tailed);
    assert tailed[1..] == TOKEN;
  }

  ghost predicate SameVerdicts(e1: string, e2: string) {
    forall pattern: string :: NamespaceOk(pattern, e1) == NamespaceOk(pattern, e2)
  }

  /** Two environments accept the same namespace patterns exactly when they are of the same kind; any two
      non-empty, brace-free names are. */
  lemma SameVerdictsIffSameKind(e1: string, e2: string)
    ensures SameVerdicts(e1, e2) <==> Kind(e1) == Kind(e2)
  {
    if Kind(e1) == Kind(e2) {
      forall pattern: string ensures NamespaceOk(pattern, e1) == NamespaceOk(pattern, e2) {
        SameKindSameVerdict(pattern, e1, e2);
      }
    } else {
      TokenAlone(e1);
      TokenAlone(e2);
      BraceInSum("a", e1);
      BraceInSum("a", e2);
      assert !HasBrace("a");
      assert NamespaceOk(TOKEN, e1) <==> Kind(e1) == Plain;
      assert NamespaceOk(TOKEN, e2) <==> Kind(e2) == Plain;
      assert NamespaceOk("a" + TOKEN, e1) <==> Kind(e1) != Braced;
      assert NamespaceOk("a" + TOKEN, e2) <==> Kind(e2) != Braced;
    }
  }
}
