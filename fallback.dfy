/** The extractor used when no spaCy model is available: it reads the fields
    straight off a dependency listing, taking the first subject, direct object
    and prepositional object, and every verb and adposition in order. */
module Fallback {
  import opened Wrappers
  import opened Text
  import opened Command

  function DependencyTokens(deps: seq<Dependency>): seq<string> {
    if deps == [] then [] else [deps[0].token] + DependencyTokens(deps[1..])
  }

  /** The token of the first row whose dependency label is `relation`, or None when there is none. */
  function FirstWithDependency(deps: seq<Dependency>, relation: string): (r: Option<string>)
    ensures r.None? <==> forall i :: 0 <= i < |deps| ==> deps[i].dependency != relation
    ensures r.Some? ==>
              exists i :: 0 <= i < |deps| && deps[i].dependency == relation && deps[i].token == r.value &&
                          forall j :: 0 <= j < i ==> deps[j].dependency != relation
  {
    if deps == [] then None
    else if deps[0].dependency == relation then Some(deps[0].token)
    else
      var r := FirstWithDependency(deps[1..], relation);
      assert forall i :: 1 <= i < |deps| ==> deps[1..][i - 1] == deps[i];
      r
  }

  /** The tokens of all rows tagged `pos`, in order. */
  function TokensWithPos(deps: seq<Dependency>, pos: string): (r: seq<string>)
    ensures |r| <= |deps|
    ensures forall i :: 0 <= i < |deps| && deps[i].pos == pos ==> deps[i].token in r
  {
    if deps == [] then []
    else
      var rest := TokensWithPos(deps[1..], pos);
      assert forall i :: 1 <= i < |deps| ==> deps[1..][i - 1] == deps[i];
      if deps[0].pos == pos then [deps[0].token] + rest else rest
  }

  /** Selecting rows by tag commutes with concatenating listings, and a single row contributes
      its token exactly when it carries the tag: together these determine the selection. */
  lemma {:induction false} TokensWithPosAppend(a: seq<Dependency>, b: seq<Dependency>, pos: string)
    ensures TokensWithPos(a + b, pos) == TokensWithPos(a, pos) + TokensWithPos(b, pos)
    ensures |a| == 1 ==> TokensWithPos(a, pos) == if a[0].pos == pos then [a[0].token] else []
    decreases |a|
  {
    if a == [] {
      assert a + b == b;
    } else {
      var ab := a + b;
      assert ab[0] == a[0] && ab[1..] == a[1..] + b;
      TokensWithPosAppend(a[1..], b, pos);
      var head := if a[0].pos == pos then [a[0].token] else [];
      assert TokensWithPos(a, pos) == head + TokensWithPos(a[1..], pos);
      assert TokensWithPos(ab, pos) == head + TokensWithPos(ab[1..], pos);
    }
  }

  /** The selected tokens keep the order of the listing. */
  lemma {:induction false} TokensWithPosKeepsOrder(deps: seq<Dependency>, pos: string)
    ensures IsSubsequence(TokensWithPos(deps, pos), DependencyTokens(deps))
    decreases |deps|
  {
    if deps != [] {
      TokensWithPosKeepsOrder(deps[1..], pos);
      var rest, tokens := TokensWithPos(deps[1..], pos), DependencyTokens(deps);
      assert tokens[0] == deps[0].token && tokens[1..] == DependencyTokens(deps[1..]);
      if deps[0].pos == pos {
        var kept := TokensWithPos(deps, pos);
        assert kept[0] == tokens[0] && kept[1..] == rest;
        assert IsSubsequence(kept[1..], tokens[1..]);
      } else {
        assert IsSubsequence(rest, tokens[1..]);
      }
    }
  }

  function FallbackComponents(deps: seq<Dependency>): Components {
    Components(
      FirstWithDependency(deps, NSUBJ),
      TokensWithPos(deps, VERB),
      FirstWithDependency(deps, DOBJ),
      FirstWithDependency(deps, POBJ),
      TokensWithPos(deps, ADP))
  }

  /** The listing `parse` hands the fallback is empty, so every field comes back absent or empty. */
  lemma FallbackOnEmpty()
    ensures FallbackComponents([]) == Components(None, [], None, None, [])
  {
  }
}
