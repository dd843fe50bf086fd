// Reading a normalized view again: when the lexer finds exactly the rewritten tokens in the text that
// normalizeOscarViewForSource (datamigrate/oscar_view.go) returns.
module ViewReread {
  import opened Wrappers
  import opened Encoding
  import opened StringLiterals
  import opened ViewLexer
  import opened ViewPairs
  import opened ViewKeep
  import opened ViewNames
  import opened ViewRewriting
  import opened ViewNormalize
  import opened ViewJoins

  // ---- The tokens that the rewriting means ----

  // A token whose text was replaced is a quoted name: its own, or in upper case.
  function Final(u: Unicode, t: Token, now: Text): Token {
    if now == [] || now == t.text then t.(text := now)
    else Token(now, if now == Quote(t.name) then t.name else u.upper(t.name), QuotedName)
  }

  function Finals(u: Unicode, tokens: seq<Token>, parts: seq<Token>): seq<Token>
    requires |parts| == |Significant(tokens)|
  {
    if tokens == [] then []
    else
      var n := |tokens| - 1;
      if tokens[n].kind == Trivia then Finals(u, tokens[..n], parts) + [tokens[n]]
      else Finals(u, tokens[..n], parts[..|parts| - 1]) + [Final(u, tokens[n], parts[|parts| - 1].text)]
  }

  lemma {:induction false} FinalsWoven(u: Unicode, tokens: seq<Token>, parts: seq<Token>)
    requires |parts| == |Significant(tokens)|
    ensures Concat(Finals(u, tokens, parts)) == Woven(tokens, parts)
  {
    if tokens != [] {
      var n := |tokens| - 1;
      if tokens[n].kind == Trivia {
        FinalsWoven(u, tokens[..n], parts);
        ConcatSnoc(Finals(u, tokens[..n], parts), tokens[n]);
      } else {
        FinalsWoven(u, tokens[..n], parts[..|parts| - 1]);
        ConcatSnoc(Finals(u, tokens[..n], parts[..|parts| - 1]), Final(u, tokens[n], parts[|parts| - 1].text));
      }
    }
  }

  // Which significant token stands at i.
  function SigIndex(tokens: seq<Token>, i: nat): nat
    requires i <= |tokens|
  {
    |Significant(tokens[..i])|
  }

  lemma {:induction false} FinalsAt(u: Unicode, tokens: seq<Token>, parts: seq<Token>, i: nat)
    requires |parts| == |Significant(tokens)| && i < |tokens|
    ensures |Finals(u, tokens, parts)| == |tokens|
    ensures if tokens[i].kind == Trivia then Finals(u, tokens, parts)[i] == tokens[i]
            else var k := SigIndex(tokens, i);
                 k < |parts| && Significant(tokens)[k] == tokens[i]
                 && Finals(u, tokens, parts)[i] == Final(u, tokens[i], parts[k].text)
  {
    var n := |tokens| - 1;
    FinalsLength(u, tokens, parts);
    if i < n {
      var rest := if tokens[n].kind == Trivia then parts else parts[..|parts| - 1];
      FinalsAt(u, tokens[..n], rest, i);
      assert tokens[..n][..i] == tokens[..i];
    }
  }

  lemma {:induction false} FinalsLength(u: Unicode, tokens: seq<Token>, parts: seq<Token>)
    requires |parts| == |Significant(tokens)|
    ensures |Finals(u, tokens, parts)| == |tokens|
  {
    if tokens != [] {
      var n := |tokens| - 1;
      FinalsLength(u, tokens[..n], if tokens[n].kind == Trivia then parts else parts[..|parts| - 1]);
    }
  }

  lemma SigNext(tokens: seq<Token>, i: nat)
    requires i < |tokens|
    ensures SigIndex(tokens, i + 1) == SigIndex(tokens, i) + (if tokens[i].kind == Trivia then 0 else 1)
  {
    SignificantSnoc(tokens, i);
  }

  // ---- The rewriting is an edit ----

  lemma OutcomeIsEdit(c: Context, sig: seq<Token>, env: Env, k: nat)
    requires Fine(sig) && k < |sig|
    ensures var now := Run(c, sig, env, |sig|)[k].text; var f := Final(c.u, sig[k], now);
            || f == sig[k] || (IsName(sig[k]) && Requoted(f))
            || (f.text == [] && (IsName(sig[k]) || sig[k].text == [DOT])
                && (k + 1 < |sig| ==> MayFollow(sig[k + 1])))
  {
    var p := Run(c, sig, env, |sig|);
    RunTracks(c, sig, env, |sig|);
    assert Outcome(c, sig, p, k);
    if Blank(sig, p, k) { BlankBeforeName(c, sig, env, |sig|, k); }
  }

  lemma RunIsEdit(c: Context, tokens: seq<Token>, env: Env)
    requires Fine(Significant(tokens))
    ensures var sig := Significant(tokens); Edit(tokens, Finals(c.u, tokens, Run(c, sig, env, |sig|)))
  {
    var sig := Significant(tokens);
    var p := Run(c, sig, env, |sig|);
    FinalsLength(c.u, tokens, p);
    forall i ensures EditAt(tokens, Finals(c.u, tokens, p), i) {
      if 0 <= i < |tokens| {
        FinalsAt(c.u, tokens, p, i);
        if tokens[i].kind != Trivia {
          OutcomeIsEdit(c, sig, env, SigIndex(tokens, i));
          SigNext(tokens, i);
          if i + 1 < |tokens| { FinalsAt(c.u, tokens, p, i + 1); }
        }
      }
    }
  }

  // ---- Main results ----

  // No neighbours that are left meet in one of the ways in which two tokens are read as something else.
  ghost predicate NoneMeet(u: Unicode, tokens: seq<Token>, finals: seq<Token>)
    requires |finals| == |tokens|
  {
    forall i, j :: Neighbours(finals, i, j) ==> !Meets(u, tokens, finals, i, j)
  }

  lemma NoneMeetExactly(u: Unicode, sql: Text, tokens: seq<Token>, finals: seq<Token>)
    requires Lexed(u, sql) == Success(tokens) && Edit(tokens, finals)
    ensures NoneJoin(u, finals) <==> NoneMeet(u, tokens, finals)
  {
    forall i, j | Neighbours(finals, i, j)
      ensures Joins(u, finals[i], finals[j]) <==> Meets(u, tokens, finals, i, j)
    {
      JoinsExactly(u, sql, tokens, finals, i, j);
    }
  }

  // Every successful normalization returns the text of the rewritten tokens, and this text lexes into exactly
  // those that are left if and only if no two neighbours meet that join.
  lemma NormalizedRelexes(c: Context, sql: Text, tokens: seq<Token>, env: Env, out: Text)
    requires Lexed(c.u, sql) == Success(tokens) && Normalizes(c, tokens, env, out)
    ensures var sig := Significant(tokens); var finals := Finals(c.u, tokens, Run(c, sig, env, |sig|));
            && out == Concat(finals) && Edit(tokens, finals)
            && (Lexed(c.u, out) == Success(Left(finals)) <==> NoneJoin(c.u, finals))
            && (NoneJoin(c.u, finals) <==> NoneMeet(c.u, tokens, finals))
  {
    var sig := Significant(tokens);
    FinalsWoven(c.u, tokens, Run(c, sig, env, |sig|));
    RunIsEdit(c, tokens, env);
    RelexesExactly(c.u, sql, tokens, Finals(c.u, tokens, Run(c, sig, env, |sig|)));
    NoneMeetExactly(c.u, sql, tokens, Finals(c.u, tokens, Run(c, sig, env, |sig|)));
  }
}
