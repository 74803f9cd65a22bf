/** Exported tool names: normalization, default names and accepted aliases. */
module ToolNames {
  import opened Wrappers

  const SEPARATOR := "__"

  predicate Allowed(c: char) {
    'a' <= c <= 'z' || '0' <= c <= '9' || c == '_'
  }

  /** All that is assumed of Python's `lower`: it keeps strings of the exported alphabet. */
  ghost predicate KeepsAllowed(lower: string -> string) {
    forall s | (forall c | c in s :: Allowed(c)) :: lower(s) == s
  }

  function Mapped(s: string): (r: string)
    ensures |r| == |s| && forall i | 0 <= i < |s| :: r[i] == if Allowed(s[i]) then s[i] else '_'
  {
    seq(|s|, i requires 0 <= i < |s| => if Allowed(s[i]) then s[i] else '_')
  }

  predicate AreWords(words: seq<string>) {
    forall i | 0 <= i < |words| :: words[i] != "" && '_' !in words[i]
  }

  /** The maximal runs without an underscore, in order. */
  function Words(s: string): (r: seq<string>)
    ensures s != "" && s[|s| - 1] != '_' ==> r != []
    ensures AreWords(r)
  {
    if s == "" then []
    else
      var init, c := s[..|s| - 1], s[|s| - 1];
      var words := Words(init);
      if c == '_' then words
      else if init != "" && init[|init| - 1] != '_' then words[..|words| - 1] + [words[|words| - 1] + [c]]
      else words + [[c]]
  }

  lemma {:induction false} WordsUse(s: string, w: string, c: char)
    requires w in Words(s) && c in w
    ensures c in s
  {
    var init, last := s[..|s| - 1], s[|s| - 1];
    var words := Words(init);
    assert s == init + [last];
    if w in words {
      WordsUse(init, w, c);
    } else if w != [last] {
      var front := words[|words| - 1];
      assert w == front + [last] && front in words;
      if c in front {
        WordsUse(init, front, c);
      }
    }
  }

  function Join(words: seq<string>): string {
    if words == [] then ""
    else if |words| == 1 then words[0]
    else Join(words[..|words| - 1]) + "_" + words[|words| - 1]
  }

  /** The words of the lowered identifier joined by single underscores; no words, no name. */
  function Normalize(value: string, lower: string -> string): Result<string, ()> {
    var words := Words(Mapped(lower(value)));
    if words == [] then Failure(()) else Success(Join(words))
  }

  function Strip(s: string): string {
    if s == "" then ""
    else if s[0] == '_' then Strip(s[1..])
    else if s[|s| - 1] == '_' then Strip(s[..|s| - 1])
    else s
  }

  /** The collapsing loop computes the joined words. */
  method NormalizeToolName(value: string, lower: string -> string) returns (r: Result<string, ()>)
    ensures r == Normalize(value, lower)
  {
    var lowered := Mapped(lower(value));
    var collapsed := "";
    for i := 0 to |lowered|
      invariant collapsed == Collapsed(lowered[..i])
    {
      var character := lowered[i];
      CollapseNext(lowered, i);
      if character == '_' && (collapsed == "" || collapsed[|collapsed| - 1] == '_') {
        continue;
      }
      collapsed := collapsed + [character];
    }
    assert lowered[..|lowered|] == lowered;
    var normalized := Strip(collapsed);
    StripCollapsed(lowered);
    if normalized == "" {
      return Failure(());
    }
    return Success(normalized);
  }

  /** What the loop has collected after `s`: the joined words, and an underscore if one ends `s`. */
  function Collapsed(s: string): string {
    Join(Words(s)) + if Words(s) != [] && s[|s| - 1] == '_' then "_" else ""
  }

  lemma {:induction false} JoinEnds(words: seq<string>)
    requires words != [] && AreWords(words)
    ensures Join(words) != "" && Join(words)[0] != '_' && Join(words)[|Join(words)| - 1] != '_'
  {
    var last := words[|words| - 1];
    assert last[|last| - 1] in last && words[0][0] in words[0];
    if |words| > 1 {
      JoinEnds(words[..|words| - 1]);
    }
  }

  lemma CollapseStep(s: string, c: char)
    ensures var before := Collapsed(s);
            Collapsed(s + [c]) ==
              if c == '_' && (before == "" || before[|before| - 1] == '_') then before else before + [c]
  {
    var words := Words(s);
    assert (s + [c])[..|s|] == s;
    if words != [] {
      JoinEnds(words);
    }
    if c != '_' {
      if s != "" && s[|s| - 1] != '_' {
        ExtendLast(words, c);
      } else if words != [] {
        assert (words + [[c]])[..|words|] == words;
      }
    }
  }

  lemma CollapseNext(s: string, i: nat)
    requires i < |s|
    ensures var before, c := Collapsed(s[..i]), s[i];
            Collapsed(s[..i + 1]) ==
              if c == '_' && (before == "" || before[|before| - 1] == '_') then before else before + [c]
  {
    CollapseStep(s[..i], s[i]);
    assert s[..i + 1] == s[..i] + [s[i]];
  }

  lemma ExtendLast(words: seq<string>, c: char)
    requires words != []
    ensures Join(words[..|words| - 1] + [words[|words| - 1] + [c]]) == Join(words) + [c]
  {
    var longer := words[..|words| - 1] + [words[|words| - 1] + [c]];
    assert longer[..|longer| - 1] == words[..|words| - 1];
    if |words| > 1 {
      var front := Join(words[..|words| - 1]) + "_";
      assert front + (words[|words| - 1] + [c]) == (front + words[|words| - 1]) + [c];
    }
  }

  lemma StripCollapsed(s: string)
    ensures Strip(Collapsed(s)) == Join(Words(s))
    ensures Words(s) == [] <==> Join(Words(s)) == ""
  {
    var words := Words(s);
    if words != [] {
      JoinEnds(words);
      assert Collapsed(s)[..|Join(words)|] == Join(words);
    }
  }

  // ------------------------------------------------------------ normal names

  /** Allowed characters only, no underscore at either end, no two in a row. */
  predicate IsNormal(name: string) {
    && name != ""
    && (forall c | c in name :: Allowed(c))
    && name[0] != '_' && name[|name| - 1] != '_'
    && SingleUnderscores(name)
  }

  predicate SingleUnderscores(name: string) {
    forall i | 0 <= i < |name| - 1 :: !SeparatorAt(name, i)
  }

  predicate SeparatorAt(name: string, i: int)
    requires 0 <= i < |name| - 1
  {
    name[i] == '_' && name[i + 1] == '_'
  }

  lemma {:induction false} JoinIsNormal(words: seq<string>)
    requires words != [] && AreWords(words)
    requires forall i, c | 0 <= i < |words| && c in words[i] :: Allowed(c)
    ensures IsNormal(Join(words))
  {
    var last := words[|words| - 1];
    JoinEnds(words);
    if |words| > 1 {
      var front := words[..|words| - 1];
      JoinIsNormal(front);
      var f := Join(front);
      var name := Join(words);
      assert name == f + "_" + last;
      forall i | 0 <= i < |name| - 1 ensures !SeparatorAt(name, i) {
        if i < |f| - 1 {
          assert !SeparatorAt(f, i);
        } else if i == |f| {
          assert last[0] in last;
        } else if i > |f| {
          assert last[i - |f| - 1] in last;
        }
      }
    } else {
      forall i | 0 <= i < |last| - 1 ensures !SeparatorAt(last, i) {
        assert last[i] in last;
      }
    }
  }

  lemma SingleUnderscoresInit(s: string)
    requires s != "" && SingleUnderscores(s)
    ensures SingleUnderscores(s[..|s| - 1])
    ensures |s| > 1 ==> !SeparatorAt(s, |s| - 2)
  {
    var init := s[..|s| - 1];
    forall i | 0 <= i < |init| - 1
      ensures !SeparatorAt(init, i)
    {
      assert !SeparatorAt(s, i);
    }
  }

  lemma {:induction false} CollapsedFixes(s: string)
    requires s != "" ==> s[0] != '_'
    requires SingleUnderscores(s)
    ensures Collapsed(s) == s
  {
    if s != "" {
      var init := s[..|s| - 1];
      SingleUnderscoresInit(s);
      CollapsedFixes(init);
      CollapseStep(init, s[|s| - 1]);
      assert s == init + [s[|s| - 1]];
    }
  }

  /** Normalization yields normal names, and the normal names are exactly its fixed points. */
  lemma NormalizeNormalizes(value: string, lower: string -> string)
    requires KeepsAllowed(lower)
    ensures Normalize(value, lower).Success? ==> IsNormal(Normalize(value, lower).value)
    ensures Normalize(value, lower) == Success(value) <==> IsNormal(value)
  {
    var mapped := Mapped(lower(value));
    if Words(mapped) != [] {
      var words := Words(mapped);
      forall i, c | 0 <= i < |words| && c in words[i] ensures Allowed(c) {
        WordsUse(mapped, words[i], c);
      }
      JoinIsNormal(Words(mapped));
    }
    if IsNormal(value) {
      assert lower(value) == value;
      assert forall i | 0 <= i < |value| :: value[i] in value;
      assert mapped == value;
      CollapsedFixes(value);
      assert Join(Words(mapped)) + "" == Join(Words(mapped)) == value;
    }
  }

  lemma NormalizeIsIdempotent(value: string, lower: string -> string)
    requires KeepsAllowed(lower) && Normalize(value, lower).Success?
    ensures Normalize(Normalize(value, lower).value, lower) == Normalize(value, lower)
  {
    NormalizeNormalizes(value, lower);
    NormalizeNormalizes(Normalize(value, lower).value, lower);
  }

  /** A lower-case letter of the Latin alphabet or a digit. */
  predicate IsAlphanumeric(c: char) {
    'a' <= c <= 'z' || '0' <= c <= '9'
  }

  /** The letters and digits of a string, in order. */
  function Alphanumeric(s: string): string {
    if s == "" then ""
    else
      var c := s[|s| - 1];
      Alphanumeric(s[..|s| - 1]) + if IsAlphanumeric(c) then [c] else ""
  }

  lemma AlphanumericSnoc(s: string, c: char)
    ensures Alphanumeric(s + [c]) == Alphanumeric(s) + if IsAlphanumeric(c) then [c] else ""
  {
    assert (s + [c])[..|s|] == s;
  }

  lemma {:induction false} MappedAlphanumeric(s: string)
    ensures Alphanumeric(Mapped(s)) == Alphanumeric(s)
  {
    if s != "" {
      MappedAlphanumeric(s[..|s| - 1]);
      assert Mapped(s)[..|s| - 1] == Mapped(s[..|s| - 1]);
    }
  }

  /** Collapsing drops nothing but underscores. */
  lemma {:induction false} CollapsedAlphanumeric(s: string)
    ensures Alphanumeric(Collapsed(s)) == Alphanumeric(s)
  {
    if s != "" {
      var init, c := s[..|s| - 1], s[|s| - 1];
      CollapsedAlphanumeric(init);
      CollapseStep(init, c);
      AlphanumericSnoc(Collapsed(init), c);
      assert s == init + [c];
    }
  }

  lemma JoinedWordsAlphanumeric(s: string)
    ensures Alphanumeric(Join(Words(s))) == Alphanumeric(s)
  {
    var joined := Join(Words(s));
    CollapsedAlphanumeric(s);
    AlphanumericSnoc(joined, '_');
    assert joined + "" == joined && joined + "_" == joined + ['_'];
  }

  /**
    A name keeps the letters and digits of the lowered value, all of them and in order; it
    fails to be one exactly when there are none.
   */
  lemma NormalizeKeepsAlphanumerics(value: string, lower: string -> string)
    ensures Normalize(value, lower).Success? <==> Alphanumeric(lower(value)) != ""
    ensures Normalize(value, lower).Success? ==>
              Alphanumeric(Normalize(value, lower).value) == Alphanumeric(lower(value))
  {
    var mapped := Mapped(lower(value));
    MappedAlphanumeric(lower(value));
    JoinedWordsAlphanumeric(mapped);
    if Words(mapped) != [] {
      var w := Words(mapped)[0];
      WordsUse(mapped, w, w[0]);
      SomeAlphanumeric(mapped, w[0]);
    }
  }

  lemma {:induction false} SomeAlphanumeric(s: string, c: char)
    requires c in s && IsAlphanumeric(c)
    ensures Alphanumeric(s) != ""
  {
    if s[|s| - 1] != c {
      SomeAlphanumeric(s[..|s| - 1], c);
    }
  }

  // ------------------------------------------------- default names and aliases

  function DefaultToolName(agent: string, capability: string, lower: string -> string): Result<string, ()> {
    var a :- Normalize(agent, lower);
    var c :- Normalize(capability, lower);
    Success(a + SEPARATOR + c)
  }

  lemma SeparatorOnce(a: string, c: string)
    requires IsNormal(a) && IsNormal(c)
    ensures var name := a + SEPARATOR + c;
            forall i | 0 <= i < |name| - 1 :: SeparatorAt(name, i) <==> i == |a|
  {
    var name := a + SEPARATOR + c;
    forall i | 0 <= i < |name| - 1 ensures SeparatorAt(name, i) <==> i == |a| {
      if i < |a| - 1 {
        assert !SeparatorAt(a, i);
      } else if i > |a| + 1 {
        assert !SeparatorAt(c, i - |a| - 2);
      }
    }
  }

  /** Equal default names come from equal normalized agents and equal normalized capabilities. */
  lemma DefaultNamesDecode(agent: string, capability: string, agent': string, capability': string,
      lower: string -> string)
    requires KeepsAllowed(lower)
    requires DefaultToolName(agent, capability, lower).Success?
    requires DefaultToolName(agent, capability, lower) == DefaultToolName(agent', capability', lower)
    ensures Normalize(agent, lower) == Normalize(agent', lower)
    ensures Normalize(capability, lower) == Normalize(capability', lower)
  {
    var a, c := Normalize(agent, lower).value, Normalize(capability, lower).value;
    var a', c' := Normalize(agent', lower).value, Normalize(capability', lower).value;
    NormalizeNormalizes(agent, lower);
    NormalizeNormalizes(capability, lower);
    NormalizeNormalizes(agent', lower);
    NormalizeNormalizes(capability', lower);
    SeparatorOnce(a, c);
    SeparatorOnce(a', c');
    var name := a + SEPARATOR + c;
    assert SeparatorAt(name, |a|) && name == a' + SEPARATOR + c';
    assert a == name[..|a|] && a' == name[..|a'|] && c == name[|a| + 2..] && c' == name[|a'| + 2..];
  }

  /** The check an export rule makes of an explicit alias. */
  predicate AliasAccepted(alias: string, lower: string -> string) {
    alias != "" && Normalize(alias, lower) == Success(alias)
  }

  /** An accepted alias is never the default name of any capability. */
  lemma AliasIsNoDefaultName(alias: string, agent: string, capability: string, lower: string -> string)
    requires KeepsAllowed(lower) && AliasAccepted(alias, lower)
    ensures DefaultToolName(agent, capability, lower) != Success(alias)
  {
    NormalizeNormalizes(alias, lower);
    var name := DefaultToolName(agent, capability, lower);
    if name.Success? {
      var a, c := Normalize(agent, lower).value, Normalize(capability, lower).value;
      NormalizeNormalizes(agent, lower);
      NormalizeNormalizes(capability, lower);
      SeparatorOnce(a, c);
      assert SeparatorAt(name.value, |a|);
    }
  }

  /** Aliases are accepted exactly if they are normal names. */
  lemma AliasAcceptedExactly(alias: string, lower: string -> string)
    requires KeepsAllowed(lower)
    ensures AliasAccepted(alias, lower) <==> IsNormal(alias)
  {
    NormalizeNormalizes(alias, lower);
  }

  /** A default name is there exactly if both segments have a letter or a digit, and is the two joined. */
  lemma DefaultNameIs(agent: string, capability: string, lower: string -> string)
    ensures var name := DefaultToolName(agent, capability, lower);
            && (name.Success? <==> Alphanumeric(lower(agent)) != "" && Alphanumeric(lower(capability)) != "")
            && (name.Success? ==>
                  name.value == Normalize(agent, lower).value + "__" + Normalize(capability, lower).value)
  {
    NormalizeKeepsAlphanumerics(agent, lower);
    NormalizeKeepsAlphanumerics(capability, lower);
  }
}
