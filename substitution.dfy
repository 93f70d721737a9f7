/**
 * The service's `{{name}}` template substitution: one left-to-right pass over
 * a string that replaces each placeholder whose name is bound in the
 * environment's variables and copies everything else, including the text it
 * inserts, without looking at it again. Word characters are the ASCII
 * letters, the digits and `_`.
 */
module Substitution {
  import opened Wrappers
  import opened Dict
  import opened Json

  /** A character of a placeholder name. */
  predicate IsWordChar(c: char) {
    ('a' <= c <= 'z') || ('A' <= c <= 'Z') || ('0' <= c <= '9') || c == '_'
  }

  predicate IsWord(s: string) {
    forall i :: 0 <= i < |s| ==> IsWordChar(s[i])
  }

  /** The longest prefix of `s` made of word characters. */
  function WordRun(s: string): (w: string)
    ensures |w| <= |s| && w == s[..|w|]
    ensures IsWord(w)
    ensures |w| < |s| ==> !IsWordChar(s[|w|])
  {
    if s != [] && IsWordChar(s[0]) then [s[0]] + WordRun(s[1..]) else []
  }

  /** A word followed by a non-word character (or nothing) is exactly the run at the start. */
  lemma {:induction false} WordRunOf(w: string, rest: string)
    requires IsWord(w)
    requires rest == [] || !IsWordChar(rest[0])
    ensures WordRun(w + rest) == w
  {
    if w != [] {
      assert (w + rest)[0] == w[0];
      assert (w + rest)[1..] == w[1..] + rest;
      WordRunOf(w[1..], rest);
    } else {
      assert w + rest == rest;
    }
  }

  /**
   * The name of the placeholder at the very start of `s`: `{{`, one or more
   * word characters, `}}`. Since a name can only be followed by `}`, the
   * longest run of word characters is the only candidate.
   */
  function PlaceholderAt(s: string): (r: Option<string>)
    ensures r.Some? ==> && r.value != [] && IsWord(r.value)
                        && |r.value| + 4 <= |s| && s[..|r.value| + 4] == "{{" + r.value + "}}"
  {
    if |s| >= 2 && s[0] == '{' && s[1] == '{' then
      var name := WordRun(s[2..]);
      if name != [] && |name| + 4 <= |s| && s[|name| + 2] == '}' && s[|name| + 3] == '}' then
        assert s[..|name| + 4] == "{{" + name + "}}" by {
          assert s[2..][..|name|] == name;
        }
        Some(name)
      else None
    else None
  }

  /** `{{name}}` followed by anything is read as a placeholder called `name`. */
  lemma PlaceholderAtOf(name: string, rest: string)
    requires name != [] && IsWord(name)
    ensures PlaceholderAt("{{" + name + "}}" + rest) == Some(name)
  {
    var s := "{{" + name + "}}" + rest;
    assert s[2..] == name + ("}}" + rest);
    WordRunOf(name, "}}" + rest);
  }

  /** What a placeholder becomes: the variable's value when it is bound, the placeholder itself otherwise. */
  function Replacement(name: string, vars: Dict<string>): (r: string)
    ensures Lookup(vars, name).Some? ==> r == Lookup(vars, name).value
    ensures Lookup(vars, name).None? ==> r == "{{" + name + "}}"
  {
    match Lookup(vars, name)
    case Some(v) => v
    case None => "{{" + name + "}}"
  }

  /** One pass over `s`: a placeholder is consumed whole, any other character is copied. */
  function Substitute(s: string, vars: Dict<string>): (r: string)
    decreases |s|
  {
    if s == [] then []
    else match PlaceholderAt(s)
      case Some(name) => Replacement(name, vars) + Substitute(s[|name| + 4..], vars)
      case None => [s[0]] + Substitute(s[1..], vars)
  }

  /** The names of the placeholders the pass meets, in order. */
  function Names(s: string): (ns: seq<string>)
    ensures forall i :: 0 <= i < |ns| ==> ns[i] != [] && IsWord(ns[i])
    decreases |s|
  {
    if s == [] then []
    else match PlaceholderAt(s)
      case Some(name) => [name] + Names(s[|name| + 4..])
      case None => Names(s[1..])
  }

  /** `apply_vars`: strings are substituted, every other value is returned as it is. */
  function ApplyVars(v: Json, vars: Dict<string>): (r: Json)
    ensures !v.JStr? ==> r == v
    ensures v.JStr? ==> r.JStr? && r.s == Substitute(v.s, vars)
  {
    if v.JStr? then JStr(Substitute(v.s, vars)) else v
  }

  /** A bound placeholder is replaced by its value, and the pass goes on after it. */
  lemma PlaceholderStep(name: string, rest: string, vars: Dict<string>)
    requires name != [] && IsWord(name)
    ensures Substitute("{{" + name + "}}" + rest, vars) == Replacement(name, vars) + Substitute(rest, vars)
  {
    var s := "{{" + name + "}}" + rest;
    PlaceholderAtOf(name, rest);
    assert s[|name| + 4..] == rest;
  }

  /** A character that does not open a placeholder is copied. */
  lemma LiteralStep(c: char, rest: string, vars: Dict<string>)
    requires c != '{'
    ensures Substitute([c] + rest, vars) == [c] + Substitute(rest, vars)
  {
    assert ([c] + rest)[1..] == rest;
  }

  /** Placeholders whose names are not bound are left verbatim: with none bound, the pass changes nothing. */
  lemma {:induction false} UnboundIsIdentity(s: string, vars: Dict<string>)
    requires forall i :: 0 <= i < |Names(s)| ==> Lookup(vars, Names(s)[i]).None?
    ensures Substitute(s, vars) == s
    decreases |s|
  {
    if s != [] {
      match PlaceholderAt(s)
      case Some(name) =>
        UnboundHead(s, name, vars);
        UnboundIsIdentity(s[|name| + 4..], vars);
        KeptPlaceholder(s, name, vars);
      case None =>
        assert Names(s) == Names(s[1..]);
        UnboundIsIdentity(s[1..], vars);
        assert s == [s[0]] + s[1..];
    }
  }

  /** The first name met is unbound, and so is every name met after the placeholder. */
  lemma UnboundHead(s: string, name: string, vars: Dict<string>)
    requires s != [] && PlaceholderAt(s) == Some(name)
    requires forall i :: 0 <= i < |Names(s)| ==> Lookup(vars, Names(s)[i]).None?
    ensures Lookup(vars, name).None?
    ensures var rest := s[|name| + 4..];
            forall i :: 0 <= i < |Names(rest)| ==> Lookup(vars, Names(rest)[i]).None?
  {
    var rest := s[|name| + 4..];
    assert Names(s) == [name] + Names(rest);
    assert Names(s)[0] == name;
    forall i | 0 <= i < |Names(rest)| ensures Lookup(vars, Names(rest)[i]).None? {
      assert Names(rest)[i] == Names(s)[i + 1];
    }
  }

  /** An unbound placeholder is copied, so if the rest is kept, so is the whole. */
  lemma KeptPlaceholder(s: string, name: string, vars: Dict<string>)
    requires s != [] && PlaceholderAt(s) == Some(name) && Lookup(vars, name).None?
    requires Substitute(s[|name| + 4..], vars) == s[|name| + 4..]
    ensures Substitute(s, vars) == s
  {
    var rest := s[|name| + 4..];
    assert Substitute(s, vars) == "{{" + name + "}}" + rest;
    assert s == s[..|name| + 4] + rest;
  }

  /** With no variables, substitution is the identity. */
  lemma NoVarsIdentity(s: string)
    ensures Substitute(s, []) == s
  {
    UnboundIsIdentity(s, []);
  }

  /** A string with no placeholder is left as it is whatever the variables. */
  lemma NoPlaceholderIdentity(s: string, vars: Dict<string>)
    requires Names(s) == []
    ensures Substitute(s, vars) == s
  {
    UnboundIsIdentity(s, vars);
  }

  /** An empty name is not a placeholder: `{{}}` is kept. */
  lemma EmptyNameKept(vars: Dict<string>)
    ensures Substitute("{{}}", vars) == "{{}}"
  {
    var s := "{{}}";
    assert WordRun(s[2..]) == [];
    assert PlaceholderAt(s).None?;
    assert PlaceholderAt(s[1..]).None?;
    assert s[1..][1..] == "}}";
    assert PlaceholderAt("}}").None?;
    LiteralStep('}', "}", vars);
    LiteralStep('}', [], vars);
    assert s[1..] == "{}}";
    assert Substitute(s[1..], vars) == "{" + Substitute("}}", vars);
  }

  /** A name with a non-word character is not a placeholder: `{{a-b}}` is kept. */
  lemma HyphenNameKept(vars: Dict<string>)
    ensures Substitute("{{a-b}}", vars) == "{{a-b}}"
  {
    var s := "{{a-b}}";
    assert WordRun(s[2..]) == "a" by {
      assert s[2..] == "a" + "-b}}";
      WordRunOf("a", "-b}}");
    }
    assert PlaceholderAt(s).None?;
    assert s[1..] == "{a-b}}";
    assert PlaceholderAt(s[1..]).None?;
    assert s[1..][1..] == "a-b}}";
    assert Names("a-b}}") == [] by {
      assert "a-b}}"[1..] == "-b}}";
      assert "-b}}"[1..] == "b}}";
      assert "b}}"[1..] == "}}";
      assert "}}"[1..] == "}";
      assert "}"[1..] == [];
    }
    NoPlaceholderIdentity("a-b}}", vars);
  }

  /** Inserted text is not rescanned: with `a` bound to `{{b}}` and `b` to `x`, `{{a}}` becomes `{{b}}`. */
  lemma InsertedTextNotRescanned()
    ensures Substitute("{{a}}", [("a", "{{b}}"), ("b", "x")]) == "{{b}}"
  {
    var vars := [("a", "{{b}}"), ("b", "x")];
    assert Lookup(vars, "a") == Some("{{b}}");
    PlaceholderStep("a", [], vars);
    assert "{{" + "a" + "}}" + [] == "{{a}}";
  }
}
