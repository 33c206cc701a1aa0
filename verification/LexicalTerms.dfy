/** The search concepts of a query: a product code counts once, however it is spelled. */
module LexicalTerms {
  import opened Text

  /** Words that carry no signal: question words and forms of `to be`, auxiliaries and articles,
      prepositions and pronouns, and the verbs of asking. */
  const STOPWORDS: set<string> := QUESTION_WORDS + AUXILIARIES + PREPOSITIONS + ASKING_WORDS

  const QUESTION_WORDS: set<string> := {
    "what", "whats", "which", "who", "whom", "whose", "when", "where", "why", "how",
    "is", "are", "was", "were", "be", "been", "being", "am"
  }

  const AUXILIARIES: set<string> := {
    "do", "does", "did", "can", "could", "will", "would", "shall", "should", "may", "might",
    "have", "has", "had", "the", "a", "an", "and", "or", "but", "if", "then", "than"
  }

  const PREPOSITIONS: set<string> := {
    "of", "on", "in", "at", "to", "for", "with", "from", "by", "about", "as", "into",
    "it", "its", "this", "that", "these", "those", "there", "here"
  }

  const ASKING_WORDS: set<string> := {
    "i", "you", "we", "they", "he", "she", "me", "my", "your", "our", "their",
    "tell", "give", "need", "want", "please", "any", "some", "get", "got", "know"
  }

  const UNIT_MAX: nat := 4
  const BARE_UNIT_MAX: nat := 2

  // ---- Tokens -------------------------------------------------------------------------------

  predicate IsWordChar(c: char) {
    IsLetter(c) || IsDigit(c)
  }

  /** How far the run of letters and digits at the front goes. */
  function Run(s: string): (n: nat)
    ensures n <= |s| && (forall i | 0 <= i < n :: IsWordChar(s[i])) && (n < |s| ==> !IsWordChar(s[n]))
  {
    if s == [] || !IsWordChar(s[0]) then 0 else 1 + Run(s[1..])
  }

  /** The maximal runs of letters and digits. */
  function Tokens(s: string): seq<string> {
    if s == [] then []
    else if !IsWordChar(s[0]) then Tokens(s[1..])
    else [s[..Run(s)]] + Tokens(s[Run(s)..])
  }

  predicate Digits(t: string) {
    t != "" && forall i | 0 <= i < |t| :: IsDigit(t[i])
  }

  predicate Letters(t: string) {
    t != "" && forall i | 0 <= i < |t| :: IsLetter(t[i])
  }

  // ---- Concepts -----------------------------------------------------------------------------

  /** A number and the unit after it. */
  predicate Joins(stops: set<string>, token: string, following: string) {
    && Digits(token) && |token| <= 3
    && Letters(following) && |following| <= UNIT_MAX && following !in stops
  }

  /** A code and its spelling in two words, which matches where the two stand together. */
  function BothSpellings(number: string, word: string): seq<string> {
    [number + word, number + "<->" + word]
  }

  /** How many digits a product code starts with: one to three, and one to four letters after them. */
  function CodeDigits(t: string): (n: nat)
    ensures n > 0 ==> n < |t| && n <= 3 && Digits(t[..n]) && Letters(t[n..]) && |t| - n <= UNIT_MAX
  {
    if 1 < |t| <= 5 && Digits(t[..1]) && Letters(t[1..]) then 1
    else if 2 < |t| <= 6 && Digits(t[..2]) && Letters(t[2..]) then 2
    else if 3 < |t| <= 7 && Digits(t[..3]) && Letters(t[3..]) then 3
    else 0
  }

  /** The concepts one token makes on its own. */
  function Alone(stops: set<string>, t: string): seq<seq<string>> {
    if |t| <= 1 || t in stops then []
    else if CodeDigits(t) > 0 then [BothSpellings(t[..CodeDigits(t)], t[CodeDigits(t)..])]
    else [[t]]
  }

  /** The concepts a number and its unit make: a real word still earns its own. */
  function Pair(number: string, word: string): seq<seq<string>> {
    [BothSpellings(number, word)] + (if |word| > BARE_UNIT_MAX then [[word]] else [])
  }

  function Concepts(stops: set<string>, tokens: seq<string>): seq<seq<string>> {
    if tokens == [] then []
    else if |tokens| > 1 && Joins(stops, tokens[0], tokens[1]) then Pair(tokens[0], tokens[1]) + Concepts(stops, tokens[2..])
    else Alone(stops, tokens[0]) + Concepts(stops, tokens[1..])
  }

  predicate Headed(groups: seq<seq<string>>) {
    forall i | 0 <= i < |groups| :: groups[i] != []
  }

  /** Some group leads with this term. */
  predicate Leads(groups: seq<seq<string>>, term: string) {
    exists i | 0 <= i < |groups| :: groups[i] != [] && groups[i][0] == term
  }

  /** The first group of each leading term. */
  function FirstOfEach(groups: seq<seq<string>>): seq<seq<string>>
    requires Headed(groups)
  {
    if groups == [] then []
    else
      var kept, g := FirstOfEach(groups[..|groups| - 1]), groups[|groups| - 1];
      if Leads(kept, g[0]) then kept else kept + [g]
  }

  lemma {:induction false} ConceptsAreHeaded(stops: set<string>, tokens: seq<string>)
    ensures Headed(Concepts(stops, tokens))
  {
    if tokens != [] {
      if |tokens| > 1 && Joins(stops, tokens[0], tokens[1]) {
        ConceptsAreHeaded(stops, tokens[2..]);
      } else {
        ConceptsAreHeaded(stops, tokens[1..]);
      }
    }
  }

  function TermGroups(stops: set<string>, query: string): seq<seq<string>> {
    ConceptsAreHeaded(stops, Tokens(Lower(query)));
    FirstOfEach(Concepts(stops, Tokens(Lower(query))))
  }

  method LexicalTermGroups(stops: set<string>, query: string) returns (groups: seq<seq<string>>)
    ensures groups == TermGroups(stops, query)
    ensures forall i, j | 0 <= i < j < |groups| :: groups[i] != [] && groups[j] != [] && groups[i][0] != groups[j][0]
  {
    var tokens := Tokens(Lower(query));
    groups := [];
    var seen: set<string> := {};
    ghost var met: seq<seq<string>> := [];
    var i := 0;
    while i < |tokens|
      invariant i <= |tokens|
      invariant Headed(met) && groups == FirstOfEach(met)
      invariant Rest(stops, tokens, i, met)
      invariant forall term :: term in seen <==> Leads(groups, term)
    {
      ReadOn(stops, tokens, i, met);
      var found: seq<seq<string>>;
      if i + 1 < |tokens| && Joins(stops, tokens[i], tokens[i + 1]) {
        found, i := Pair(tokens[i], tokens[i + 1]), i + 2;
      } else {
        found, i := Alone(stops, tokens[i]), i + 1;
      }
      groups, seen := AddAll(groups, seen, met, found);
      met := met + found;
    }
    assert met == Concepts(stops, tokens);
    HeadsAreDistinct(met);
  }

  /** What has been met, and what the tokens from `i` on still make, is all there is. */
  ghost predicate Rest(stops: set<string>, tokens: seq<string>, i: nat, met: seq<seq<string>>)
    requires i <= |tokens|
  {
    met + Concepts(stops, tokens[i..]) == Concepts(stops, tokens)
  }

  lemma ReadOn(stops: set<string>, tokens: seq<string>, i: nat, met: seq<seq<string>>)
    requires i < |tokens| && Rest(stops, tokens, i, met)
    ensures if i + 1 < |tokens| && Joins(stops, tokens[i], tokens[i + 1]) then Rest(stops, tokens, i + 2, met + Pair(tokens[i], tokens[i + 1]))
            else Rest(stops, tokens, i + 1, met + Alone(stops, tokens[i]))
  {
    assert tokens[i..][1..] == tokens[i + 1..];
    if i + 1 < |tokens| {
      assert tokens[i..][2..] == tokens[i + 2..];
    }
  }

  /** Add each group whose leading term is new. */
  method AddAll(before: seq<seq<string>>, known: set<string>, ghost met: seq<seq<string>>, found: seq<seq<string>>)
    returns (groups: seq<seq<string>>, seen: set<string>)
    requires Headed(met) && Headed(found) && before == FirstOfEach(met)
    requires forall term :: term in known <==> Leads(before, term)
    ensures Headed(met + found) && groups == FirstOfEach(met + found)
    ensures forall term :: term in seen <==> Leads(groups, term)
  {
    groups, seen := before, known;
    assert met + found[..0] == met;
    for k := 0 to |found|
      invariant Headed(met + found[..k]) && groups == FirstOfEach(met + found[..k])
      invariant forall term :: term in seen <==> Leads(groups, term)
    {
      var g := found[k];
      assert (met + found[..k + 1])[..|met| + k] == met + found[..k] && (met + found[..k + 1])[|met| + k] == g;
      if g[0] !in seen {
        LeadsAppends(groups, g);
        groups, seen := groups + [g], seen + {g[0]};
      }
    }
    assert found[..|found|] == found;
  }

  lemma LeadsAppends(groups: seq<seq<string>>, g: seq<string>)
    requires g != []
    ensures forall term :: Leads(groups + [g], term) <==> Leads(groups, term) || term == g[0]
  {
    forall term
      ensures Leads(groups + [g], term) <==> Leads(groups, term) || term == g[0]
    {
      var all := groups + [g];
      assert all[|groups|] == g;
      if Leads(groups, term) {
        var i :| 0 <= i < |groups| && groups[i] != [] && groups[i][0] == term;
        assert all[i] == groups[i];
      }
    }
  }

  // ---- What the groups are ------------------------------------------------------------------

  predicate DistinctHeads(groups: seq<seq<string>>) {
    forall i, j | 0 <= i < j < |groups| :: groups[i] != [] && groups[j] != [] && groups[i][0] != groups[j][0]
  }

  /** No concept is counted twice. */
  lemma {:induction false} HeadsAreDistinct(groups: seq<seq<string>>)
    requires Headed(groups)
    ensures DistinctHeads(FirstOfEach(groups)) && Headed(FirstOfEach(groups))
  {
    if groups != [] {
      HeadsAreDistinct(groups[..|groups| - 1]);
    }
  }

  /** Dropping repeats loses no concept and makes none up. */
  lemma {:induction false} NoConceptIsLost(groups: seq<seq<string>>, term: string)
    requires Headed(groups)
    ensures Leads(FirstOfEach(groups), term) <==> Leads(groups, term)
  {
    if groups != [] {
      var before, g := groups[..|groups| - 1], groups[|groups| - 1];
      NoConceptIsLost(before, term);
      assert groups == before + [g];
      LeadsAppends(before, g);
      LeadsAppends(FirstOfEach(before), g);
    }
  }

  // ---- One spelling or the other ------------------------------------------------------------

  /** Every one of these starts with a letter. */
  ghost predicate Words(stops: set<string>) {
    forall w | w in stops :: w != "" && IsLetter(w[0])
  }

  /** A code's digits are found wherever they end. */
  lemma CodeSplits(d: string, u: string)
    requires Digits(d) && |d| <= 3 && Letters(u) && |u| <= UNIT_MAX
    ensures CodeDigits(d + u) == |d| && (d + u)[..|d|] == d && (d + u)[|d|..] == u
  {
    var t := d + u;
    assert t[..|d|] == d && t[|d|..] == u;
    assert IsLetter(t[|d|]);
    if |d| > 1 {
      assert t[1..][0] == d[1];
    }
    if |d| > 2 {
      assert t[2..][0] == d[2];
    }
  }

  /** What stands before a number is read the same whatever follows it. */
  lemma {:induction false} ConceptsBefore(stops: set<string>, pre: seq<string>, rest: seq<string>)
    requires rest != [] && !Letters(rest[0])
    ensures Concepts(stops, pre + rest) == Concepts(stops, pre) + Concepts(stops, rest)
  {
    if pre == [] {
      assert pre + rest == rest;
    } else if |pre| > 1 && Joins(stops, pre[0], pre[1]) {
      assert (pre + rest)[2..] == pre[2..] + rest;
      ConceptsBefore(stops, pre[2..], rest);
    } else {
      assert (pre + rest)[1..] == pre[1..] + rest;
      assert |pre| == 1 ==> (pre + rest)[1] == rest[0];
      ConceptsBefore(stops, pre[1..], rest);
    }
  }

  predicate ReadsAlike(stops: set<string>, d: string, u: string, pre: seq<string>, post: seq<string>) {
    Concepts(stops, pre + [d + u] + post) == Concepts(stops, pre + [d, u] + post)
  }

  /** A code of one to three digits and a unit of up to four letters. */
  predicate Code(d: string, u: string) {
    Digits(d) && |d| <= 3 && Letters(u) && |u| <= UNIT_MAX
  }

  lemma {:induction false} CodeInOne(stops: set<string>, d: string, u: string, post: seq<string>)
    requires Words(stops) && Code(d, u)
    ensures !Letters(d + u) && Concepts(stops, [d + u] + post) == [BothSpellings(d, u)] + Concepts(stops, post)
  {
    CodeSplits(d, u);
    assert (d + u)[0] == d[0];
    assert !Digits(d + u) by {
      assert (d + u)[|d|] == u[0];
    }
    assert d + u !in stops;
    assert ([d + u] + post)[1..] == post;
  }

  lemma {:induction false} CodeInTwo(stops: set<string>, d: string, u: string, post: seq<string>)
    requires Code(d, u) && u !in stops
    ensures Concepts(stops, [d, u] + post) == Pair(d, u) + Concepts(stops, post)
  {
    assert ([d, u] + post)[2..] == post;
  }

  /** A number before a stopword is no code. */
  lemma {:induction false} StopwordIsNoUnit(stops: set<string>, d: string, u: string)
    requires Code(d, u) && u in stops
    ensures Concepts(stops, [d, u]) != [BothSpellings(d, u)]
  {
    assert [d, u][1..] == [u];
    assert Concepts(stops, [u]) == Alone(stops, u) + Concepts(stops, []) == [];
    assert Concepts(stops, [d, u]) == Alone(stops, d) + Concepts(stops, [u]);
    DigitsAreNoCode(d);
    assert Alone(stops, d) == [] || Alone(stops, d) == [[d]];
    assert |[d]| != |BothSpellings(d, u)| && [[d]][0] != [BothSpellings(d, u)][0];
  }

  lemma DigitsAreNoCode(d: string)
    requires Digits(d)
    ensures CodeDigits(d) == 0
  {
    assert forall n | 0 < n < |d| :: d[n..][0] == d[n] && !Letters(d[n..]);
  }

  lemma ShortUnitsReadAlike(stops: set<string>, d: string, u: string, pre: seq<string>, post: seq<string>)
    requires Words(stops) && Code(d, u) && |u| <= BARE_UNIT_MAX && u !in stops
    ensures ReadsAlike(stops, d, u, pre, post)
  {
    assert IsDigit(d[0]) && !Letters(d);
    CodeInOne(stops, d, u, post);
    CodeInTwo(stops, d, u, post);
    assert Pair(d, u) == [BothSpellings(d, u)];
    SameEndings(stops, pre, [d + u] + post, [d, u] + post);
    Regroups(pre, [d + u], post);
    Regroups(pre, [d, u], post);
  }

  lemma {:induction false} SameEndings(stops: set<string>, pre: seq<string>, a: seq<string>, b: seq<string>)
    requires a != [] && !Letters(a[0]) && b != [] && !Letters(b[0]) && Concepts(stops, a) == Concepts(stops, b)
    ensures Concepts(stops, pre + a) == Concepts(stops, pre + b)
  {
    ConceptsBefore(stops, pre, a);
    ConceptsBefore(stops, pre, b);
  }

  lemma Regroups(a: seq<string>, b: seq<string>, c: seq<string>)
    ensures a + b + c == a + (b + c)
  {
  }

  /** The two spellings of a code make the same concepts in every query exactly when the unit has at most
      two letters and is not a stopword: a longer one is a word of its own when it stands alone. */
  lemma SpellingsReadAlikeExactly(stops: set<string>, d: string, u: string)
    requires Words(stops) && Code(d, u)
    ensures (forall pre, post :: ReadsAlike(stops, d, u, pre, post)) <==> |u| <= BARE_UNIT_MAX && u !in stops
  {
    if |u| <= BARE_UNIT_MAX && u !in stops {
      forall pre, post
        ensures ReadsAlike(stops, d, u, pre, post)
      {
        ShortUnitsReadAlike(stops, d, u, pre, post);
      }
    } else {
      CodeInOne(stops, d, u, []);
      assert [] + [d + u] + [] == [d + u] + [];
      assert [] + [d, u] + [] == [d, u] + [] == [d, u];
      if u in stops {
        StopwordIsNoUnit(stops, d, u);
      } else {
        CodeInTwo(stops, d, u, []);
      }
      assert !ReadsAlike(stops, d, u, [], []);
    }
  }

  // ---- In the text of the query -------------------------------------------------------------

  /** Nothing runs across the join. */
  predicate Apart(a: string, b: string) {
    a == [] || b == [] || !IsWordChar(a[|a| - 1]) || !IsWordChar(b[0])
  }

  lemma {:induction false} RunIsLocal(a: string, b: string)
    requires a != [] && IsWordChar(a[0]) && Apart(a, b)
    ensures Run(a + b) == Run(a)
  {
    if |a| > 1 && IsWordChar(a[1]) {
      RunIsLocal(a[1..], b);
      assert (a + b)[1..] == a[1..] + b;
    } else {
      assert (a + b)[1..] == a[1..] + b;
    }
  }

  lemma {:induction false} TokensConcat(a: string, b: string)
    requires Apart(a, b)
    ensures Tokens(a + b) == Tokens(a) + Tokens(b)
    decreases |a|
  {
    if a == [] {
      assert a + b == b;
    } else if !IsWordChar(a[0]) {
      assert (a + b)[1..] == a[1..] + b;
      TokensConcat(a[1..], b);
    } else {
      RunIsLocal(a, b);
      var n := Run(a);
      assert (a + b)[..n] == a[..n] && (a + b)[n..] == a[n..] + b;
      TokensConcat(a[n..], b);
    }
  }

  lemma {:induction false} OneToken(t: string)
    requires t != "" && forall i | 0 <= i < |t| :: IsWordChar(t[i])
    ensures Tokens(t) == [t]
  {
    assert Run(t) == |t| && t[..|t|] == t && t[|t|..] == [];
  }

  /** Writing a code with a space in it, in either case and anywhere in a query where it stands as a
      word, changes none of the query's concept groups. */
  lemma SpacingACodeChangesNothing(stops: set<string>, d: string, unit: string, left: string, right: string)
    requires Words(stops) && Code(d, Lower(unit)) && |unit| <= BARE_UNIT_MAX && Lower(unit) !in stops
    requires Apart(Lower(left), d) && Apart(Lower(unit), Lower(right))
    ensures TermGroups(stops, left + (d + unit) + right) == TermGroups(stops, left + (d + " " + unit) + right)
  {
    var u, l, r := Lower(unit), Lower(left), Lower(right);
    CodeInLowerCase(d, unit);
    LowerParts(left, d + unit, right);
    LowerParts(left, d + " " + unit, right);
    Spaced(d, u, r);
    TokensAsOne(d, u, l, r);
    TokensAsTwo(d, u, l, r);
    ShortUnitsReadAlike(stops, d, u, Tokens(l), Tokens(r));
  }

  lemma LowerParts(a: string, b: string, c: string)
    ensures Lower(a + b + c) == Lower(a) + (Lower(b) + Lower(c))
  {
  }

  lemma Spaced(d: string, u: string, r: string)
    ensures d + " " + u + r == d + (" " + (u + r))
  {
  }

  lemma CodeInLowerCase(d: string, unit: string)
    requires Digits(d)
    ensures Lower(d + unit) == d + Lower(unit) && Lower(d + " " + unit) == d + " " + Lower(unit)
  {
  }

  lemma {:induction false} TokensAround(l: string, word: string, rest: string)
    requires word != "" && (forall i | 0 <= i < |word| :: IsWordChar(word[i])) && Apart(l, word) && Apart(word, rest)
    ensures Tokens(l + (word + rest)) == Tokens(l) + ([word] + Tokens(rest))
  {
    OneToken(word);
    assert (word + rest)[0] == word[0];
    TokensConcat(l, word + rest);
    TokensConcat(word, rest);
  }

  lemma {:induction false} TokensAsOne(d: string, u: string, l: string, r: string)
    requires Code(d, u) && Apart(l, d) && Apart(u, r)
    ensures Tokens(l + ((d + u) + r)) == Tokens(l) + [d + u] + Tokens(r)
  {
    assert (d + u)[0] == d[0] && (d + u)[|d + u| - 1] == u[|u| - 1];
    TokensAround(l, d + u, r);
    Regroups(Tokens(l), [d + u], Tokens(r));
  }

  lemma {:induction false} TokensAsTwo(d: string, u: string, l: string, r: string)
    requires Code(d, u) && Apart(l, d) && Apart(u, r)
    ensures Tokens(l + (d + (" " + (u + r)))) == Tokens(l) + [d, u] + Tokens(r)
  {
    var rest := " " + (u + r);
    assert rest[0] == ' ';
    TokensAround(l, d, rest);
    TokensAfterSpace(u, r);
    assert [d] + ([u] + Tokens(r)) == [d, u] + Tokens(r);
    Regroups(Tokens(l), [d, u], Tokens(r));
  }

  lemma {:induction false} TokensAfterSpace(u: string, r: string)
    requires Letters(u) && Apart(u, r)
    ensures Tokens(" " + (u + r)) == [u] + Tokens(r)
  {
    OneToken(u);
    TokensConcat(u, r);
    assert (" " + (u + r))[1..] == u + r;
  }

  // ---- The agent's own list -----------------------------------------------------------------

  lemma QuestionWordsStartWithLetters(w: string)
    requires w in QUESTION_WORDS
    ensures w != "" && IsLetter(w[0])
  {
  }

  lemma AuxiliariesStartWithLetters(w: string)
    requires w in AUXILIARIES
    ensures w != "" && IsLetter(w[0])
  {
  }

  lemma PrepositionsStartWithLetters(w: string)
    requires w in PREPOSITIONS
    ensures w != "" && IsLetter(w[0])
  {
  }

  lemma AskingWordsStartWithLetters(w: string)
    requires w in ASKING_WORDS
    ensures w != "" && IsLetter(w[0])
  {
  }

  /** The words the agent ignores are words, so no code is among them. */
  lemma StopwordsAreWords()
    ensures Words(STOPWORDS)
  {
    forall w | w in STOPWORDS
      ensures w != "" && IsLetter(w[0])
    {
      if w in QUESTION_WORDS {
        QuestionWordsStartWithLetters(w);
      } else if w in AUXILIARIES {
        AuxiliariesStartWithLetters(w);
      } else if w in PREPOSITIONS {
        PrepositionsStartWithLetters(w);
      } else {
        AskingWordsStartWithLetters(w);
      }
    }
  }
}
