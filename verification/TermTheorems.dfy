/** Which concepts a query is read as, said of its tokens. */
module TermTheorems {
  import opened Text
  import opened LexicalTerms

  /** A number of at most three digits before a unit of at most four letters that is no stopword. */
  predicate NumberAndUnit(stops: set<string>, a: string, b: string) {
    && 1 <= |a| <= 3 && (forall i | 0 <= i < |a| :: '0' <= a[i] <= '9')
    && 1 <= |b| <= 4 && (forall i | 0 <= i < |b| :: 'a' <= b[i] <= 'z') && b !in stops
  }

  predicate StartsPair(stops: set<string>, tokens: seq<string>, i: int) {
    0 <= i < |tokens| - 1 && NumberAndUnit(stops, tokens[i], tokens[i + 1])
  }

  /** A code in one token: the digits and the letters of it. */
  predicate CodeOf(t: string, d: string, u: string) {
    t == d + u && Code(d, u)
  }

  ghost predicate IsCode(t: string) {
    exists d, u :: CodeOf(t, d, u)
  }

  /** A number and its unit are one concept, in both spellings. */
  predicate FromPair(stops: set<string>, tokens: seq<string>, i: int, g: seq<string>)
    requires 0 <= i < |tokens|
  {
    StartsPair(stops, tokens, i) && g == [tokens[i] + tokens[i + 1], tokens[i] + "<->" + tokens[i + 1]]
  }

  /** A unit of three or four letters is a word besides. */
  predicate FromUnit(stops: set<string>, tokens: seq<string>, i: int, g: seq<string>)
    requires 0 <= i < |tokens|
  {
    StartsPair(stops, tokens, i - 1) && |tokens[i]| > 2 && g == [tokens[i]]
  }

  /** Any other token of two characters or more that is no stopword is one, in both spellings if it is a code. */
  ghost predicate FromToken(stops: set<string>, tokens: seq<string>, i: int, g: seq<string>)
    requires 0 <= i < |tokens|
  {
    && !StartsPair(stops, tokens, i) && !StartsPair(stops, tokens, i - 1)
    && FromWord(stops, tokens[i], g)
  }

  ghost predicate FromWord(stops: set<string>, t: string, g: seq<string>) {
    && |t| > 1 && t !in stops
    && (forall d, u | CodeOf(t, d, u) :: g == [t, d + "<->" + u])
    && (!IsCode(t) ==> g == [t])
  }

  ghost predicate FromHere(stops: set<string>, tokens: seq<string>, i: int, g: seq<string>)
    requires 0 <= i < |tokens|
  {
    FromPair(stops, tokens, i, g) || FromUnit(stops, tokens, i, g) || FromToken(stops, tokens, i, g)
  }

  ghost predicate FromSomewhere(stops: set<string>, tokens: seq<string>, g: seq<string>) {
    exists i :: 0 <= i < |tokens| && FromHere(stops, tokens, i, g)
  }

  lemma JoinsIsNumberAndUnit(stops: set<string>, a: string, b: string)
    ensures Joins(stops, a, b) <==> NumberAndUnit(stops, a, b)
  {
  }

  lemma AloneIsFromWord(stops: set<string>, t: string, g: seq<string>)
    ensures g in Alone(stops, t) <==> FromWord(stops, t, g)
  {
    if IsCode(t) {
      var d, u :| CodeOf(t, d, u);
      CodeSplits(d, u);
      forall e, v | CodeOf(t, e, v)
        ensures e == d && v == u
      {
        CodeSplits(e, v);
      }
      assert CodeDigits(t) == |d|;
    } else if CodeDigits(t) > 0 {
      var n := CodeDigits(t);
      assert t == t[..n] + t[n..];
      assert CodeOf(t, t[..n], t[n..]);
    }
  }

  /** Numbers are no units, so of two tokens side by side at most one belongs to a pair with the other. */
  lemma PairsDoNotOverlap(stops: set<string>, tokens: seq<string>, i: int)
    requires StartsPair(stops, tokens, i)
    ensures !StartsPair(stops, tokens, i + 1) && !StartsPair(stops, tokens, i - 1)
  {
    assert '0' <= tokens[i][0] <= '9';
    assert 'a' <= tokens[i + 1][0] <= 'z';
  }

  /** Past a token no pair reaches over, a text is read as if it began there. */
  lemma ReadFrom(stops: set<string>, tokens: seq<string>, n: nat, i: int, g: seq<string>)
    requires n <= i < |tokens| && !StartsPair(stops, tokens, n - 1)
    ensures FromHere(stops, tokens, i, g) <==> FromHere(stops, tokens[n..], i - n, g)
  {
    assert tokens[n..][i - n] == tokens[i];
    assert StartsPair(stops, tokens, i) == StartsPair(stops, tokens[n..], i - n);
    assert StartsPair(stops, tokens, i - 1) == StartsPair(stops, tokens[n..], i - 1 - n);
  }

  lemma ReadOnFrom(stops: set<string>, tokens: seq<string>, n: nat, g: seq<string>)
    requires 1 <= n <= |tokens| && !StartsPair(stops, tokens, n - 1)
    ensures FromSomewhere(stops, tokens, g) <==>
      (exists i :: 0 <= i < n && FromHere(stops, tokens, i, g)) || FromSomewhere(stops, tokens[n..], g)
  {
    if i :| n <= i < |tokens| && FromHere(stops, tokens, i, g) {
      ReadFrom(stops, tokens, n, i, g);
      assert FromHere(stops, tokens[n..], i - n, g);
    }
    if j :| 0 <= j < |tokens[n..]| && FromHere(stops, tokens[n..], j, g) {
      ReadFrom(stops, tokens, n, j + n, g);
      assert FromHere(stops, tokens, j + n, g);
    }
  }

  /** What a pair of tokens is read as. */
  lemma PairIsFromHere(stops: set<string>, tokens: seq<string>, g: seq<string>)
    requires StartsPair(stops, tokens, 0)
    ensures g in Pair(tokens[0], tokens[1]) <==> FromHere(stops, tokens, 0, g) || FromHere(stops, tokens, 1, g)
  {
    PairsDoNotOverlap(stops, tokens, 0);
    assert tokens[1] != "";
  }

  lemma TokenIsFromHere(stops: set<string>, tokens: seq<string>, g: seq<string>)
    requires tokens != [] && !StartsPair(stops, tokens, 0)
    ensures g in Alone(stops, tokens[0]) <==> FromHere(stops, tokens, 0, g)
  {
    AloneIsFromWord(stops, tokens[0], g);
  }

  /** A query's concepts are exactly these: its codes in both spellings, whether written in one word or two, the
      longer units besides, and its other words that are no stopwords. */
  lemma {:induction false} ConceptsAreExactly(stops: set<string>, tokens: seq<string>, g: seq<string>)
    ensures g in Concepts(stops, tokens) <==> FromSomewhere(stops, tokens, g)
    decreases |tokens|
  {
    if tokens != [] {
      if |tokens| > 1 {
        JoinsIsNumberAndUnit(stops, tokens[0], tokens[1]);
      }
      if StartsPair(stops, tokens, 0) {
        PairsDoNotOverlap(stops, tokens, 0);
        ReadOnFrom(stops, tokens, 2, g);
        PairIsFromHere(stops, tokens, g);
        ConceptsAreExactly(stops, tokens[2..], g);
      } else {
        ReadOnFrom(stops, tokens, 1, g);
        TokenIsFromHere(stops, tokens, g);
        ConceptsAreExactly(stops, tokens[1..], g);
      }
    }
  }

  /** Of the groups a search asks for, every one is such a concept, and every such concept's leading term leads
      one of them. */
  lemma GroupsAreTheConcepts(stops: set<string>, query: string, g: seq<string>)
    ensures g in TermGroups(stops, query) ==> FromSomewhere(stops, Tokens(Lower(query)), g)
    ensures g != [] && FromSomewhere(stops, Tokens(Lower(query)), g) ==> Leads(TermGroups(stops, query), g[0])
  {
    var tokens := Tokens(Lower(query));
    var concepts := Concepts(stops, tokens);
    ConceptsAreHeaded(stops, tokens);
    ConceptsAreExactly(stops, tokens, g);
    KeptAreConcepts(concepts);
    if g != [] && g in concepts {
      var i :| 0 <= i < |concepts| && concepts[i] == g;
      NoConceptIsLost(concepts, g[0]);
    }
  }

  lemma {:induction false} KeptAreConcepts(groups: seq<seq<string>>)
    requires Headed(groups)
    ensures forall g | g in FirstOfEach(groups) :: g in groups
  {
    if groups != [] {
      KeptAreConcepts(groups[..|groups| - 1]);
    }
  }
}
