/** The rule-based post-processor run over the tagger's tokens: one left-to-right
    pass that routes every token to at most one rule by a fixed priority
    (subject, verb, direct object, prepositional object, adposition, adverbial
    particle, noun), then the choice of a primary direct object and the
    demotion of conversational verbs. The pass is stated declaratively, one
    specification function per accumulated field, and the imperative method
    is proved to compute exactly that. */
module SpacyExtraction {
  import opened Wrappers
  import opened Text
  import opened Command

  /** What the tagger gives for one token: its text, part-of-speech tag and dependency label. */
  datatype Token = Token(text: string, pos: string, dep: string)

  /** The branch of the classification chain a token takes. */
  datatype Branch =
    | SubjectBranch
    | VerbBranch
    | DirectObjectBranch
    | PrepObjectBranch
    | AdpositionBranch
    | AdverbBranch
    | NounBranch
    | NoBranch

  const PRONOUNS: set<string> := {"it", "this", "that", "them"}
  const CONVERSATIONAL_VERBS: set<string> := {"want", "need", "would", "like", "try", "going", "gonna"}

  /** The first test of the chain that the token passes; later tests are not tried. */
  function Route(t: Token): Branch {
    if t.dep == NSUBJ then SubjectBranch
    else if t.pos == VERB then VerbBranch
    else if t.dep == DOBJ then DirectObjectBranch
    else if t.dep == POBJ then PrepObjectBranch
    else if t.pos == ADP then AdpositionBranch
    else if t.pos == ADV && t.dep == ADVMOD then AdverbBranch
    else if t.pos == NOUN then NounBranch
    else NoBranch
  }

  function Texts(ts: seq<Token>): seq<string> {
    if ts == [] then [] else [ts[0].text] + Texts(ts[1..])
  }

  /** In order, the texts of the tokens of `ts` routed to one of the branches `bs`. */
  function Routed(ts: seq<Token>, bs: set<Branch>): seq<string>
    decreases |ts|
  {
    if ts == [] then []
    else
      var n := |ts| - 1;
      Routed(ts[..n], bs) + (if Route(ts[n]) in bs then [ts[n].text] else [])
  }

  function Verbs(ts: seq<Token>): seq<string> {
    Routed(ts, {VerbBranch})
  }

  function Nouns(ts: seq<Token>): seq<string> {
    Routed(ts, {NounBranch})
  }

  function Prepositions(ts: seq<Token>): seq<string> {
    Routed(ts, {AdpositionBranch, AdverbBranch})
  }

  /** The text of the last token routed to branch `b`: later tokens overwrite earlier ones. */
  function LastRouted(ts: seq<Token>, b: Branch): (r: Option<string>)
    ensures r.None? <==> forall i :: 0 <= i < |ts| ==> Route(ts[i]) != b
    ensures r.Some? ==>
              exists i :: 0 <= i < |ts| && Route(ts[i]) == b && ts[i].text == r.value &&
                          forall j :: i < j < |ts| ==> Route(ts[j]) != b
    decreases |ts|
  {
    if ts == [] then None
    else
      var n := |ts| - 1;
      if Route(ts[n]) == b then Some(ts[n].text)
      else
        var earlier := LastRouted(ts[..n], b);
        assert forall i :: 0 <= i < n ==> ts[..n][i] == ts[i];
        earlier
  }

  /** The text of the first token routed to branch `b`: once set, the value is kept. */
  function FirstRouted(ts: seq<Token>, b: Branch): (r: Option<string>)
    ensures r.None? <==> forall i :: 0 <= i < |ts| ==> Route(ts[i]) != b
    ensures r.Some? ==>
              exists i :: 0 <= i < |ts| && Route(ts[i]) == b && ts[i].text == r.value &&
                          forall j :: 0 <= j < i ==> Route(ts[j]) != b
    decreases |ts|
  {
    if ts == [] then None
    else
      var n := |ts| - 1;
      assert forall i :: 0 <= i < n ==> ts[..n][i] == ts[i];
      var earlier := FirstRouted(ts[..n], b);
      if earlier.Some? then earlier
      else if Route(ts[n]) == b then Some(ts[n].text)
      else None
  }

  function Subject(ts: seq<Token>): Option<string> {
    LastRouted(ts, SubjectBranch)
  }

  function FirstPrepObject(ts: seq<Token>): Option<string> {
    FirstRouted(ts, PrepObjectBranch)
  }

  predicate IsPronoun(s: string) {
    Lower(s) in PRONOUNS
  }

  /** The candidate a direct-object token contributes, given the nouns collected before it. */
  function Resolve(text: string, nouns: seq<string>): string {
    if IsPronoun(text) && |nouns| > 0 then nouns[|nouns| - 1] else text
  }

  /** The direct-object candidates, one per token routed to the direct-object branch,
      each resolved against the nouns collected before that token. */
  function DirectObjects(ts: seq<Token>): seq<string>
    decreases |ts|
  {
    if ts == [] then []
    else
      var n := |ts| - 1;
      DirectObjects(ts[..n]) +
        (if Route(ts[n]) == DirectObjectBranch then [Resolve(ts[n].text, Nouns(ts[..n]))] else [])
  }

  /** The first element of `xs` that also occurs in `ys`. */
  function FirstMember(xs: seq<string>, ys: seq<string>): (r: Option<string>)
    ensures r.None? <==> forall k :: 0 <= k < |xs| ==> xs[k] !in ys
    ensures r.Some? ==>
              exists k :: 0 <= k < |xs| && xs[k] == r.value && xs[k] in ys &&
                          forall j :: 0 <= j < k ==> xs[j] !in ys
  {
    if xs == [] then None
    else if xs[0] in ys then Some(xs[0])
    else
      var r := FirstMember(xs[1..], ys);
      assert forall k :: 1 <= k < |xs| ==> xs[1..][k - 1] == xs[k];
      r
  }

  /** A search that stops at the first hit `k` finds `xs[k]`. */
  lemma {:induction false} FirstMemberAt(xs: seq<string>, ys: seq<string>, k: nat)
    requires k < |xs| && xs[k] in ys
    requires forall j :: 0 <= j < k ==> xs[j] !in ys
    ensures FirstMember(xs, ys) == Some(xs[k])
    decreases k
  {
    if k > 0 {
      assert xs[0] !in ys;
      assert xs[1..][k - 1] == xs[k];
      FirstMemberAt(xs[1..], ys, k - 1);
    }
  }

  /** The primary direct object chosen among the candidates. */
  function PrimaryObject(candidates: seq<string>, nouns: seq<string>): (r: Option<string>)
    ensures r.None? <==> candidates == []
    ensures |candidates| == 1 ==> r == Some(candidates[0])
    ensures |candidates| > 1 && (forall k :: 0 <= k < |candidates| ==> candidates[k] !in nouns) ==>
              r == Some(candidates[0])
    ensures |candidates| > 1 && (exists k :: 0 <= k < |candidates| && candidates[k] in nouns) ==>
              exists k :: 0 <= k < |candidates| && r == Some(candidates[k]) && candidates[k] in nouns &&
                          forall j :: 0 <= j < k ==> candidates[j] !in nouns
  {
    if candidates == [] then None
    else if |candidates| > 1 && FirstMember(candidates, nouns).Some? then FirstMember(candidates, nouns)
    else Some(candidates[0])
  }

  predicate IsConversational(v: string) {
    Lower(v) in CONVERSATIONAL_VERBS
  }

  /** The verbs that are not conversational, in their original order. */
  function ActionVerbs(vs: seq<string>): (r: seq<string>)
    ensures IsSubsequence(r, vs)
    ensures forall i :: 0 <= i < |r| ==> !IsConversational(r[i])
  {
    if vs == [] then []
    else
      var rest := ActionVerbs(vs[1..]);
      if IsConversational(vs[0]) then rest else [vs[0]] + rest
  }

  /** Every action verb is kept as often as it occurs, and no conversational verb is kept. */
  lemma {:induction false} ActionVerbsCounts(vs: seq<string>)
    ensures forall v :: multiset(ActionVerbs(vs))[v] == if IsConversational(v) then 0 else multiset(vs)[v]
    decreases |vs|
  {
    if vs != [] {
      ActionVerbsCounts(vs[1..]);
      assert vs == [vs[0]] + vs[1..];
    }
  }

  /** Demotion applies when there is more than one verb and an action verb among them. */
  predicate Demotes(verbs: seq<string>) {
    |verbs| > 1 && exists i :: 0 <= i < |verbs| && !IsConversational(verbs[i])
  }

  /** The components the main path returns for a token stream. */
  function SpacyComponents(ts: seq<Token>): Components {
    var verbs := Verbs(ts);
    var primary := PrimaryObject(DirectObjects(ts), Nouns(ts));
    var indirect := FirstPrepObject(ts);
    var actionVerbs := ActionVerbs(verbs);
    if |actionVerbs| > 0 && |verbs| > 1 then
      if primary.None? && Truthy(indirect) then
        Components(Subject(ts), actionVerbs, indirect, None, Prepositions(ts))
      else
        Components(Subject(ts), actionVerbs, primary, indirect, Prepositions(ts))
    else
      Components(Subject(ts), verbs, primary, indirect, Prepositions(ts))
  }

  /** How each accumulated field changes when the pass moves past token `i`. */
  lemma ScanStep(ts: seq<Token>, i: nat)
    requires i < |ts|
    ensures var p, t := ts[..i], ts[i];
            && Subject(ts[..i + 1]) == (if Route(t) == SubjectBranch then Some(t.text) else Subject(p))
            && Verbs(ts[..i + 1]) == Verbs(p) + (if Route(t) == VerbBranch then [t.text] else [])
            && DirectObjects(ts[..i + 1]) ==
                 DirectObjects(p) + (if Route(t) == DirectObjectBranch then [Resolve(t.text, Nouns(p))] else [])
            && FirstPrepObject(ts[..i + 1]) ==
                 (if FirstPrepObject(p).None? && Route(t) == PrepObjectBranch then Some(t.text) else FirstPrepObject(p))
            && Prepositions(ts[..i + 1]) ==
                 Prepositions(p) + (if Route(t) in {AdpositionBranch, AdverbBranch} then [t.text] else [])
            && Nouns(ts[..i + 1]) == Nouns(p) + (if Route(t) == NounBranch then [t.text] else [])
  {
    assert ts[..i + 1][..i] == ts[..i];
  }

  /** The left-to-right pass: each token updates the one accumulator its branch names. */
  method Scan(doc: seq<Token>)
    returns (subject: Option<string>, verbs: seq<string>, directObjects: seq<string>,
             indirectObject: Option<string>, prepositions: seq<string>, nouns: seq<string>)
    ensures subject == Subject(doc) && verbs == Verbs(doc) && directObjects == DirectObjects(doc)
    ensures indirectObject == FirstPrepObject(doc) && prepositions == Prepositions(doc) && nouns == Nouns(doc)
  {
    subject, verbs, directObjects, indirectObject, prepositions, nouns := None, [], [], None, [], [];
    for i := 0 to |doc|
      invariant subject == Subject(doc[..i])
      invariant verbs == Verbs(doc[..i])
      invariant directObjects == DirectObjects(doc[..i])
      invariant indirectObject == FirstPrepObject(doc[..i])
      invariant prepositions == Prepositions(doc[..i])
      invariant nouns == Nouns(doc[..i])
    {
      var token := doc[i];
      ScanStep(doc, i);
      if token.dep == NSUBJ {
        subject := Some(token.text);
      } else if token.pos == VERB {
        verbs := verbs + [token.text];
      } else if token.dep == DOBJ {
        if IsPronoun(token.text) {
          if |nouns| > 0 {
            directObjects := directObjects + [nouns[|nouns| - 1]];
          } else {
            directObjects := directObjects + [token.text];
          }
        } else {
          directObjects := directObjects + [token.text];
        }
      } else if token.dep == POBJ {
        if indirectObject == None {
          indirectObject := Some(token.text);
        }
      } else if token.pos == ADP {
        prepositions := prepositions + [token.text];
      } else if token.pos == ADV && token.dep == ADVMOD {
        prepositions := prepositions + [token.text];
      } else if token.pos == NOUN {
        nouns := nouns + [token.text];
      }
    }
    assert doc[..|doc|] == doc;
  }

  /** The pass over the tokens, then the choice of the primary object and the verb demotion. */
  method ExtractGrammaticalComponentsSpacy(doc: seq<Token>) returns (r: Components)
    ensures r == SpacyComponents(doc)
  {
    var subject, verbs, directObjects, indirectObject, prepositions, nouns := Scan(doc);

    var primaryObject := if |directObjects| > 0 then Some(directObjects[0]) else None;
    if |directObjects| > 1 {
      var k := 0;
      while k < |directObjects|
        invariant 0 <= k <= |directObjects|
        invariant primaryObject == Some(directObjects[0])
        invariant forall j :: 0 <= j < k ==> directObjects[j] !in nouns
      {
        if directObjects[k] in nouns {
          primaryObject := Some(directObjects[k]);
          FirstMemberAt(directObjects, nouns, k);
          break;
        }
        k := k + 1;
      }
    }
    assert primaryObject == PrimaryObject(directObjects, nouns);

    var actionVerbs := ActionVerbs(verbs);
    if |actionVerbs| > 0 && |verbs| > 1 {
      verbs := actionVerbs;
      if primaryObject == None && Truthy(indirectObject) {
        primaryObject := indirectObject;
        indirectObject := None;
      }
    }

    r := Components(subject, verbs, primaryObject, indirectObject, prepositions);
  }

  // ---------------------------------------------------------------------------
  // What the pass collects, stated against conditions on the tokens themselves.

  /** In order, the texts of the tokens satisfying `p`, scanning from the front. */
  function Keep(ts: seq<Token>, p: Token -> bool): seq<string> {
    if ts == [] then [] else (if p(ts[0]) then [ts[0].text] else []) + Keep(ts[1..], p)
  }

  /** A verb that is not the nominal subject. */
  predicate IsNonSubjectVerb(t: Token) {
    t.pos == VERB && t.dep != NSUBJ
  }

  /** A noun that is none of subject, direct object and prepositional object. */
  predicate IsFreeNoun(t: Token) {
    t.pos == NOUN && t.dep != NSUBJ && t.dep != DOBJ && t.dep != POBJ
  }

  /** An adposition, or an adverbial-modifier adverb, that is none of subject,
      direct object and prepositional object. */
  predicate IsParticle(t: Token) {
    && (t.pos == ADP || (t.pos == ADV && t.dep == ADVMOD))
    && t.dep != NSUBJ && t.dep != DOBJ && t.dep != POBJ
  }

  lemma {:induction false} KeepAppend(a: seq<Token>, b: seq<Token>, p: Token -> bool)
    ensures Keep(a + b, p) == Keep(a, p) + Keep(b, p)
    decreases |a|
  {
    if a == [] {
      assert a + b == b;
    } else {
      assert (a + b)[1..] == a[1..] + b;
      KeepAppend(a[1..], b, p);
    }
  }

  lemma {:induction false} RoutedAsKeep(ts: seq<Token>, bs: set<Branch>, p: Token -> bool)
    requires forall t :: p(t) == (Route(t) in bs)
    ensures Routed(ts, bs) == Keep(ts, p)
    decreases |ts|
  {
    if ts != [] {
      var n := |ts| - 1;
      RoutedAsKeep(ts[..n], bs, p);
      KeepAppend(ts[..n], [ts[n]], p);
      assert ts[..n] + [ts[n]] == ts;
    }
  }

  lemma {:induction false} KeepIsSubsequence(ts: seq<Token>, p: Token -> bool)
    ensures IsSubsequence(Keep(ts, p), Texts(ts))
    decreases |ts|
  {
    if ts != [] {
      KeepIsSubsequence(ts[1..], p);
      var rest, texts := Keep(ts[1..], p), Texts(ts);
      assert texts[0] == ts[0].text && texts[1..] == Texts(ts[1..]);
      if p(ts[0]) {
        var kept := Keep(ts, p);
        assert kept == [ts[0].text] + rest;
        assert kept[0] == texts[0] && kept[1..] == rest;
        assert IsSubsequence(kept[1..], texts[1..]);
      } else {
        assert Keep(ts, p) == rest;
        assert IsSubsequence(rest, texts[1..]);
      }
    }
  }

  /** Before demotion, the verbs are exactly the verb-tagged tokens that are not the subject, in order. */
  lemma VerbsAreNonSubjectVerbs(ts: seq<Token>)
    ensures Verbs(ts) == Keep(ts, IsNonSubjectVerb)
  {
    RoutedAsKeep(ts, {VerbBranch}, IsNonSubjectVerb);
  }

  /** A noun that is itself a subject or an object never enters the noun list. */
  lemma NounsExcludeArguments(ts: seq<Token>)
    ensures Nouns(ts) == Keep(ts, IsFreeNoun)
  {
    RoutedAsKeep(ts, {NounBranch}, IsFreeNoun);
  }

  /** The prepositions are exactly the tokens reaching the adposition and adverb branches, in order. */
  lemma PrepositionsAreParticles(ts: seq<Token>)
    ensures Prepositions(ts) == Keep(ts, IsParticle)
  {
    RoutedAsKeep(ts, {AdpositionBranch, AdverbBranch}, IsParticle);
  }

  /** Every list built by routing alone (verbs, prepositions, nouns) is a subsequence of the
      token texts. The direct-object candidates are not: a resolved pronoun repeats an earlier noun. */
  lemma RoutedIsSubsequence(ts: seq<Token>, bs: set<Branch>)
    ensures IsSubsequence(Routed(ts, bs), Texts(ts))
  {
    var p := (t: Token) => Route(t) in bs;
    RoutedAsKeep(ts, bs, p);
    KeepIsSubsequence(ts, p);
  }

  /** The subject is the text of the last nominal subject, and absent when there is none. */
  lemma SubjectIsLastNsubj(ts: seq<Token>)
    ensures Subject(ts).None? <==> forall i :: 0 <= i < |ts| ==> ts[i].dep != NSUBJ
    ensures Subject(ts).Some? ==>
              exists i :: 0 <= i < |ts| && ts[i].dep == NSUBJ && ts[i].text == Subject(ts).value &&
                          forall j :: i < j < |ts| ==> ts[j].dep != NSUBJ
  {
  }

  /** Before promotion, the indirect object is the first prepositional object that is not
      tagged as a verb (a verb-tagged one is taken by the verb branch), and absent when there is none. */
  lemma IndirectIsFirstPobj(ts: seq<Token>)
    ensures FirstPrepObject(ts).None? <==>
              forall i :: 0 <= i < |ts| ==> !(ts[i].dep == POBJ && ts[i].pos != VERB)
    ensures FirstPrepObject(ts).Some? ==>
              exists i :: 0 <= i < |ts| && ts[i].dep == POBJ && ts[i].pos != VERB &&
                          ts[i].text == FirstPrepObject(ts).value &&
                          forall j :: 0 <= j < i ==> !(ts[j].dep == POBJ && ts[j].pos != VERB)
  {
  }

  /** There is one candidate per token reaching the direct-object branch. */
  lemma {:induction false} DirectObjectsCount(ts: seq<Token>)
    ensures |DirectObjects(ts)| == |Routed(ts, {DirectObjectBranch})|
    decreases |ts|
  {
    if ts != [] {
      DirectObjectsCount(ts[..|ts| - 1]);
    }
  }

  /** Later tokens never change the candidates collected from earlier ones. */
  lemma {:induction false} DirectObjectsPrefix(ts: seq<Token>, i: nat)
    requires i <= |ts|
    ensures DirectObjects(ts[..i]) <= DirectObjects(ts)
    decreases |ts|
  {
    if i < |ts| {
      var n := |ts| - 1;
      assert ts[..n][..i] == ts[..i];
      DirectObjectsPrefix(ts[..n], i);
    } else {
      assert ts[..i] == ts;
    }
  }

  /** The direct object at position `i` is the k-th candidate, where k counts the direct objects
      before it; a pronoun there stands for the most recent noun seen before `i`, or for itself
      when no noun has been seen yet; any other word stands for itself. */
  lemma DirectObjectAt(ts: seq<Token>, i: nat)
    requires i < |ts| && ts[i].dep == DOBJ && ts[i].pos != VERB
    ensures var k, earlier := |Routed(ts[..i], {DirectObjectBranch})|, Keep(ts[..i], IsFreeNoun);
            && k < |DirectObjects(ts)|
            && DirectObjects(ts)[k] ==
                 if IsPronoun(ts[i].text) && earlier != [] then earlier[|earlier| - 1] else ts[i].text
  {
    ScanStep(ts, i);
    DirectObjectsCount(ts[..i]);
    DirectObjectsPrefix(ts, i + 1);
    NounsExcludeArguments(ts[..i]);
  }

  /** The source's test "some action verb survives the filter, and there is more than one verb". */
  lemma DemotesIff(verbs: seq<string>)
    ensures Demotes(verbs) <==> |ActionVerbs(verbs)| > 0 && |verbs| > 1
  {
    var actionVerbs := ActionVerbs(verbs);
    ActionVerbsCounts(verbs);
    if exists i :: 0 <= i < |verbs| && !IsConversational(verbs[i]) {
      var i :| 0 <= i < |verbs| && !IsConversational(verbs[i]);
      assert multiset(actionVerbs)[verbs[i]] == multiset(verbs)[verbs[i]] > 0;
    }
    if actionVerbs != [] {
      assert multiset(verbs)[actionVerbs[0]] == multiset(actionVerbs)[actionVerbs[0]] > 0;
      assert actionVerbs[0] in verbs;
    }
  }

  /** There are no direct-object candidates exactly when no token reaches the direct-object branch. */
  lemma {:induction false} NoCandidatesIff(ts: seq<Token>)
    ensures DirectObjects(ts) == [] <==> forall i :: 0 <= i < |ts| ==> !(ts[i].dep == DOBJ && ts[i].pos != VERB)
    decreases |ts|
  {
    if ts != [] {
      var n := |ts| - 1;
      NoCandidatesIff(ts[..n]);
      assert forall i :: 0 <= i < n ==> ts[..n][i] == ts[i];
    }
  }

  /** Demotion keeps exactly the action verbs when there are several verbs and one of them is
      an action verb, and otherwise leaves the verbs alone; either way the result keeps the
      order of the verbs and is empty only when there were no verbs. */
  lemma ConversationalDemotion(ts: seq<Token>)
    ensures var verbs, r := Verbs(ts), SpacyComponents(ts);
            && (Demotes(verbs) ==> r.verbs == ActionVerbs(verbs))
            && (!Demotes(verbs) ==> r.verbs == verbs)
            && IsSubsequence(r.verbs, verbs)
            && (r.verbs == [] <==> verbs == [])
  {
    DemotesIff(Verbs(ts));
    SubsequenceOfItself(Verbs(ts));
  }

  /** The verbs returned, demoted or not, are a subsequence of the token texts. */
  lemma FinalVerbsAreSubsequence(ts: seq<Token>)
    ensures IsSubsequence(SpacyComponents(ts).verbs, Texts(ts))
  {
    ConversationalDemotion(ts);
    RoutedIsSubsequence(ts, {VerbBranch});
    SubsequenceTransitive(SpacyComponents(ts).verbs, Verbs(ts), Texts(ts));
  }

  /** An objectless command whose verbs are demoted takes its first (truthy) prepositional object
      as the direct object and then has no indirect object; otherwise both objects are kept. */
  lemma ObjectPromotion(ts: seq<Token>)
    ensures var r, primary, indirect :=
              SpacyComponents(ts), PrimaryObject(DirectObjects(ts), Nouns(ts)), FirstPrepObject(ts);
            var promotes :=
              && Demotes(Verbs(ts))
              && (forall i :: 0 <= i < |ts| ==> !(ts[i].dep == DOBJ && ts[i].pos != VERB))
              && Truthy(indirect);
            && (promotes ==> r.directObject == indirect && r.indirectObject == None)
            && (!promotes ==> r.directObject == primary && r.indirectObject == indirect)
            && r.subject == Subject(ts)
            && r.prepositions == Prepositions(ts)
  {
    DemotesIff(Verbs(ts));
    NoCandidatesIff(ts);
  }
}
