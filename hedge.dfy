/** The fallback decider `answer_not_in_docs`: a generated answer "hedges" when its
    lower-cased text contains one of eight fixed phrases. */
module HedgeDetector {
  import opened Text

  /** The eight trigger phrases, in the order the application lists them. */
  const Triggers: seq<string> := [
    "not mentioned",
    "not available",
    "no information",
    "not found",
    "does not contain",
    "no context",
    "i don't know",
    "not provided"
  ]

  /** `any(t in s for t in ts)`. */
  function AnyContained(s: string, ts: seq<string>): (r: bool)
    ensures r <==> exists k :: 0 <= k < |ts| && Contains(s, ts[k])
  {
    if ts == [] then false
    else if Contains(s, ts[0]) then true
    else
      var rest := AnyContained(s, ts[1..]);
      assert forall k :: 1 <= k < |ts| ==> ts[k] == ts[1..][k - 1];
      rest
  }

  /** `answer_not_in_docs(answer)`: true exactly when one of the eight triggers occurs at
      some position of the lower-cased answer. */
  predicate AnswerNotInDocs(answer: string)
    ensures AnswerNotInDocs(answer) <==>
      exists k: nat, i: nat :: k < |Triggers| && OccursAt(Lower(answer), Triggers[k], i)
  {
    var lower := Lower(answer);
    var r := AnyContained(lower, Triggers);
    assert r ==> exists k: nat, i: nat :: k < |Triggers| && OccursAt(lower, Triggers[k], i) by {
      if r {
        var k :| 0 <= k < |Triggers| && Contains(lower, Triggers[k]);
        var i: nat :| OccursAt(lower, Triggers[k], i);
      }
    }
    assert (exists k: nat, i: nat :: k < |Triggers| && OccursAt(lower, Triggers[k], i)) ==> r by {
      if exists k: nat, i: nat :: k < |Triggers| && OccursAt(lower, Triggers[k], i) {
        var k: nat, i: nat :| k < |Triggers| && OccursAt(lower, Triggers[k], i);
        assert Contains(lower, Triggers[k]);
      }
    }
    r
  }

  /** The empty answer never asks for the fallback. */
  lemma EmptyAnswerIsNotHedge()
    ensures !AnswerNotInDocs("")
  {
    forall k | 0 <= k < |Triggers| ensures !Contains(Lower(""), Triggers[k]) {
      assert |Triggers[k]| > 0;
    }
  }

  /** Every listed phrase makes the detector fire, in any position of any answer. */
  lemma TriggerFires(a: string, prefix: string, k: nat, suffix: string)
    requires k < |Triggers| && a == prefix + Triggers[k] + suffix
    ensures AnswerNotInDocs(a)
  {
    LowerAppend(prefix + Triggers[k], suffix);
    LowerAppend(prefix, Triggers[k]);
    assert Lower(Triggers[k]) == Triggers[k];
    assert Lower(a) == Lower(prefix) + Triggers[k] + Lower(suffix);
    assert OccursAt(Lower(a), Triggers[k], |prefix|) by {
      assert Lower(a)[|prefix|..|prefix| + |Triggers[k]|] == Triggers[k];
    }
  }

  /** The detector ignores case: an answer and its lower-cased form are judged alike. */
  lemma CaseInsensitive(answer: string)
    ensures AnswerNotInDocs(Lower(answer)) == AnswerNotInDocs(answer)
  {
    LowerIdempotent(answer);
  }

  /** Two answers that differ only in the case of ASCII letters are judged alike. */
  lemma SameLowerSameVerdict(a: string, b: string)
    requires |a| == |b|
    requires forall i :: 0 <= i < |a| ==> LowerChar(a[i]) == LowerChar(b[i])
    ensures AnswerNotInDocs(a) == AnswerNotInDocs(b)
  {
    assert Lower(a) == Lower(b);
  }

  /** Monotone under containment: a hedge inside a longer answer is still a hedge. */
  lemma MonotoneUnderContainment(a: string, b: string)
    requires Contains(b, a)
    requires AnswerNotInDocs(a)
    ensures AnswerNotInDocs(b)
  {
    var k :| 0 <= k < |Triggers| && Contains(Lower(a), Triggers[k]);
    ContainsLower(a, b);
    ContainsTransitive(Triggers[k], Lower(a), Lower(b));
  }

  /** Every trigger contains the letter 'o', so an answer with neither 'o' nor 'O'
      never asks for the fallback. */
  lemma NoLetterONoHedge(answer: string)
    requires 'o' !in answer && 'O' !in answer
    ensures !AnswerNotInDocs(answer)
  {
    assert 'o' !in Lower(answer) by {
      forall i | 0 <= i < |answer| ensures Lower(answer)[i] != 'o' {
        assert answer[i] != 'o' && answer[i] != 'O';
      }
    }
    forall k | 0 <= k < |Triggers| ensures !Contains(Lower(answer), Triggers[k]) {
      assert 'o' in Triggers[k] by {
        var t := Triggers[k];
        if k == 0 { assert t[1] == 'o'; }
        else if k == 1 { assert t[1] == 'o'; }
        else if k == 2 { assert t[1] == 'o'; }
        else if k == 3 { assert t[1] == 'o'; }
        else if k == 4 { assert t[1] == 'o'; }
        else if k == 5 { assert t[1] == 'o'; }
        else if k == 6 { assert t[3] == 'o'; }
        else { assert t[1] == 'o'; }
      }
      if Contains(Lower(answer), Triggers[k]) {
        ContainsChars(Lower(answer), Triggers[k], 'o');
      }
    }
  }

  /** A sample hedge: a "does not contain" answer asks for the fallback. */
  lemma SampleHedge()
    ensures AnswerNotInDocs("The document does not contain this information.")
  {
    var a := "The document does not contain this information.";
    assert a == "The document " + Triggers[4] + " this information.";
    TriggerFires(a, "The document ", 4, " this information.");
  }

  /** A sample plain answer: it is shown as it is. */
  lemma SamplePlain()
    ensures !AnswerNotInDocs("The capital is Paris.")
  {
    var a := "The capital is Paris.";
    assert forall i :: 0 <= i < |a| ==> a[i] != 'o' && a[i] != 'O';
    NoLetterONoHedge(a);
  }
}
