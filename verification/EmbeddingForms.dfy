/** What a rejected text is retried as and what it gets in the end, told from the token count and the
    truncation alone. */
module EmbeddingForms {
  import opened Wrappers
  import opened EmbeddingRecovery

  // ---------- which forms are tried ----------

  /** The three cuts: three quarters of the limit, or one token less than the text if that is smaller;
      a half; a quarter. */
  ghost function Cut(s: Settings, text: string, j: nat): int
    requires j < 3
  {
    var limit, count := s.maxInputTokens, s.tokens(text);
    if j == 0 then (if limit * 3 / 4 <= count - 1 then limit * 3 / 4 else count - 1)
    else if j == 1 then limit / 2
    else limit / 4
  }

  ghost function Form(s: Settings, text: string, j: nat): string
    requires j < 3
  {
    s.truncate(text, Cut(s, text, j))
  }

  /** A cut is used when it is positive and below the text's own count, and its form when it is not
      empty and really another text. */
  ghost predicate Tried(s: Settings, text: string, j: nat)
    requires j < 3
  {
    0 < Cut(s, text, j) < s.tokens(text) && Form(s, text, j) != "" && Form(s, text, j) != text
  }

  ghost function Added(s: Settings, text: string, j: nat, seen: seq<string>): seq<string>
    requires j < 3
  {
    if Tried(s, text, j) && Form(s, text, j) !in seen then seen + [Form(s, text, j)] else seen
  }

  /** The candidates, one cut after the other. */
  lemma CandidatesAre(s: Settings, text: string)
    ensures s.Candidates(text) == Added(s, text, 2, Added(s, text, 1, Added(s, text, 0, [])))
  {
    var limit, count := s.maxInputTokens, s.tokens(text);
    var cuts := [Cut(s, text, 0), limit / 2, limit / 4];
    assert cuts[1..] == [limit / 2, limit / 4] && cuts[1..][1..] == [limit / 4] && [limit / 4][1..] == [];
    OneCut(s, text, cuts, []);
    OneCut(s, text, cuts[1..], Added(s, text, 0, []));
    OneCut(s, text, [limit / 4], Added(s, text, 1, Added(s, text, 0, [])));
    assert s.Budgets(text) == Settings.Usable(cuts, count);
  }

  /** One cut of the list: used, or left out. */
  lemma OneCut(s: Settings, text: string, cuts: seq<int>, seen: seq<string>)
    requires cuts != []
    ensures var reduced := s.truncate(text, cuts[0]);
            var more := if 0 < cuts[0] < s.tokens(text) && reduced != "" && reduced != text && reduced !in seen
                        then seen + [reduced] else seen;
            s.Reduced(text, Settings.Usable(cuts, s.tokens(text)), seen)
            == s.Reduced(text, Settings.Usable(cuts[1..], s.tokens(text)), more)
  {
    var rest := Settings.Usable(cuts[1..], s.tokens(text));
    if 0 < cuts[0] < s.tokens(text) {
      assert Settings.Usable(cuts, s.tokens(text)) == [cuts[0]] + rest;
      assert ([cuts[0]] + rest)[1..] == rest;
    } else {
      assert Settings.Usable(cuts, s.tokens(text)) == [] + rest == rest;
    }
  }

  /** Exactly which forms are tried, each once. */
  lemma TriedExactly(s: Settings, text: string, form: string)
    ensures form in s.Candidates(text) <==> exists j: nat :: j < 3 && Tried(s, text, j) && Form(s, text, j) == form
  {
    CandidatesAre(s, text);
    if form in s.Candidates(text) {
      var j := if Tried(s, text, 0) && Form(s, text, 0) == form then 0
               else if Tried(s, text, 1) && Form(s, text, 1) == form then 1 else 2;
      assert Tried(s, text, j) && Form(s, text, j) == form;
    }
  }

  // ---------- which one answers ----------

  ghost predicate Accepted(s: Settings, bad: string -> bool, text: string, j: nat)
    requires j < 3
  {
    0 < Cut(s, text, j) < s.tokens(text) && Form(s, text, j) != "" && !bad(Form(s, text, j))
  }

  ghost predicate AllBad(bad: string -> bool, forms: seq<string>) { forall k :: 0 <= k < |forms| ==> bad(forms[k]) }

  lemma {:induction false} FirstGoodSnoc(s: Settings, bad: string -> bool, emb: string -> Vec, forms: seq<string>,
                                         form: string)
    ensures FirstGood(s, bad, emb, forms + [form]) ==
            if !AllBad(bad, forms) then FirstGood(s, bad, emb, forms)
            else if bad(form) then s.ZeroVector()
            else emb(form)
  {
    if forms == [] {
      assert [] + [form] == [form] && [form][1..] == [];
    } else {
      FirstGoodSnoc(s, bad, emb, forms[1..], form);
      assert (forms + [form])[1..] == forms[1..] + [form];
      assert AllBad(bad, forms) <==> bad(forms[0]) && AllBad(bad, forms[1..]) by {
        if bad(forms[0]) && AllBad(bad, forms[1..]) {
          forall k | 0 <= k < |forms| ensures bad(forms[k]) { if k > 0 { assert forms[1..][k - 1] == forms[k]; } }
        }
      }
    }
  }

  lemma {:induction false} FirstGoodNone(s: Settings, bad: string -> bool, emb: string -> Vec, forms: seq<string>)
    requires AllBad(bad, forms)
    ensures FirstGood(s, bad, emb, forms) == s.ZeroVector()
  {
    if forms != [] {
      assert bad(forms[0]);
      FirstGoodNone(s, bad, emb, forms[1..]);
    }
  }

  /** What one more cut changes, for a text the provider rejects. */
  lemma OneMoreForm(s: Settings, bad: string -> bool, emb: string -> Vec, text: string, j: nat, seen: seq<string>)
    requires j < 3 && bad(text)
    ensures var all := Added(s, text, j, seen);
            && (AllBad(bad, all) <==> AllBad(bad, seen) && !Accepted(s, bad, text, j))
            && FirstGood(s, bad, emb, all) ==
               if !AllBad(bad, seen) then FirstGood(s, bad, emb, seen)
               else if Accepted(s, bad, text, j) then emb(Form(s, text, j)) else s.ZeroVector()
  {
    var form := Form(s, text, j);
    FirstGoodSnoc(s, bad, emb, seen, form);
    if AllBad(bad, seen) { FirstGoodNone(s, bad, emb, seen); }
    assert (seen + [form])[|seen|] == form;
    assert AllBad(bad, seen + [form]) ==> AllBad(bad, seen) by {
      forall k | 0 <= k < |seen| ensures (seen + [form])[k] == seen[k] {}
    }
  }

  /** What a rejected text gets: the embedding of the first of its cuts that the provider accepts, and the
      zero vector if it accepts none. */
  lemma RejectedGets(s: Settings, bad: string -> bool, emb: string -> Vec, text: string)
    requires bad(text)
    ensures Alone(s, bad, emb, text) ==
            if Accepted(s, bad, text, 0) then emb(Form(s, text, 0))
            else if Accepted(s, bad, text, 1) then emb(Form(s, text, 1))
            else if Accepted(s, bad, text, 2) then emb(Form(s, text, 2))
            else seq(s.outputDimension, _ => 0.0)
  {
    var none: seq<string> := [];
    var one := Added(s, text, 0, none);
    var two := Added(s, text, 1, one);
    CandidatesAre(s, text);
    OneMoreForm(s, bad, emb, text, 0, none);
    OneMoreForm(s, bad, emb, text, 1, one);
    OneMoreForm(s, bad, emb, text, 2, two);
    assert s.ZeroVector() == seq(s.outputDimension, _ => 0.0);
  }

  /** The whole batched path, position by position: zeros for a blank text; the embedding of the text cut
      to the limit when the provider accepts it; otherwise what its shorter cuts give. */
  lemma AnswerSpelledOut(s: Settings, bad: string -> bool, emb: string -> Vec, texts: seq<string>, i: nat)
    requires s.Valid() && s.ready && Itemwise(s, bad, emb) && i < |texts|
    ensures Answer(s, texts).Ok? && |Answer(s, texts).value| == |texts|
    ensures var text := s.truncate(s.normalize(texts[i]), s.maxInputTokens);
            Answer(s, texts).value[i] ==
            if s.normalize(texts[i]) == "" then seq(s.outputDimension, _ => 0.0)
            else if !bad(text) then emb(text)
            else if Accepted(s, bad, text, 0) then emb(Form(s, text, 0))
            else if Accepted(s, bad, text, 1) then emb(Form(s, text, 1))
            else if Accepted(s, bad, text, 2) then emb(Form(s, text, 2))
            else seq(s.outputDimension, _ => 0.0)
  {
    AnswerIsPerItem(s, bad, emb, texts);
    assert s.ZeroVector() == seq(s.outputDimension, _ => 0.0);
    var text := s.truncate(s.normalize(texts[i]), s.maxInputTokens);
    if bad(text) { RejectedGets(s, bad, emb, text); }
  }

  // ---------- failures ----------

  /** Any other failure of the provider ends a call at once: nothing is sent after it. */
  lemma FailureEnds(s: Settings, texts: seq<string>)
    requires s.Valid() && s.ready && Pending(s, texts) != []
    requires var first := Pending(s, texts)[..NextStart(s, Pending(s, texts), 0)]; s.provider(Texts(first)).Failed?
    ensures Answer(s, texts) == Err(RequestFailed)
    ensures AnswerLog(s, texts) == [Texts(Pending(s, texts)[..NextStart(s, Pending(s, texts), 0)])]
  {
    var pending := Pending(s, texts);
    var stop := NextStart(s, pending, 0);
    assert pending[0..stop] == pending[..stop];
  }

  /** So does a reply with too many or too few vectors. */
  lemma WrongLengthFails(s: Settings, texts: seq<string>)
    requires s.provider(texts).Vectors? && |s.provider(texts).vectors| != |texts|
    ensures s.Request(texts) == Failed
  {
  }
}
