/** Classification of parameters by substrings of their names.

    A parameter is identified by its (dotted) name. Python's `pat in name`
    on strings is substring containment; it is written here as `Contains`
    and checked against an index-based reference definition. */
module ParamNames {

  /** The patterns that exempt a parameter from weight decay. */
  const NO_DECAY: seq<string> := ["bias", "LayerNorm.weight"]

  /** `pat in s` on Python strings: `pat` occurs somewhere in `s`. */
  predicate Contains(s: string, pat: string)
    decreases |s|
  {
    pat <= s || (|s| > 0 && Contains(s[1..], pat))
  }

  /** Reference definition of substring containment: an index at which `pat` starts. */
  ghost predicate OccursAt(s: string, pat: string, i: int)
  {
    0 <= i && i + |pat| <= |s| && s[i..i + |pat|] == pat
  }

  /** An occurrence at index `i` is found by `Contains`. */
  lemma {:induction false} OccursAtContains(s: string, pat: string, i: int)
    requires OccursAt(s, pat, i)
    ensures Contains(s, pat)
    decreases i
  {
    if i == 0 {
      assert s[..|pat|] == pat;
    } else {
      assert s[1..][i - 1..i - 1 + |pat|] == s[i..i + |pat|];
      OccursAtContains(s[1..], pat, i - 1);
    }
  }

  /** `Contains` agrees with the index-based definition, in both directions. */
  lemma {:induction false} ContainsIff(s: string, pat: string)
    ensures Contains(s, pat) <==> exists i :: OccursAt(s, pat, i)
    decreases |s|
  {
    if exists i :: OccursAt(s, pat, i) {
      var i :| OccursAt(s, pat, i);
      OccursAtContains(s, pat, i);
    }
    if Contains(s, pat) {
      if pat <= s {
        assert s[0..|pat|] == pat;
        assert OccursAt(s, pat, 0);
      } else {
        ContainsIff(s[1..], pat);
        var i :| OccursAt(s[1..], pat, i);
        assert s[1..][i..i + |pat|] == s[i + 1..i + 1 + |pat|];
        assert OccursAt(s, pat, i + 1);
      }
    }
  }

  /** A name that contains `pat` also contains every prefix of `pat`. */
  lemma {:induction false} ContainsPrefix(s: string, pat: string, pre: string)
    requires pre <= pat
    requires Contains(s, pat)
    ensures Contains(s, pre)
    decreases |s|
  {
    if !(pat <= s) {
      ContainsPrefix(s[1..], pat, pre);
    }
  }

  /** `any(nd in n for nd in pats)`: some pattern of `pats` occurs in `n`. */
  predicate AnyContained(pats: seq<string>, n: string)
  {
    exists k :: 0 <= k < |pats| && Contains(n, pats[k])
  }

  /** The parameter is exempt from weight decay. */
  predicate NoDecay(n: string)
  {
    AnyContained(NO_DECAY, n)
  }

  lemma NoDecayIff(n: string)
    ensures NoDecay(n) <==> Contains(n, "bias") || Contains(n, "LayerNorm.weight")
  {
    if Contains(n, "bias") {
      assert Contains(n, NO_DECAY[0]);
    }
    if Contains(n, "LayerNorm.weight") {
      assert Contains(n, NO_DECAY[1]);
    }
  }

  /** Task-specific head parameter: the name does not contain "model". */
  predicate IsHead(n: string)
  {
    !Contains(n, "model")
  }

  /** Backbone parameter owned neither by the embeddings nor by an encoder layer. */
  predicate IsExtra(n: string)
  {
    Contains(n, "model") && !Contains(n, "model.embeddings") && !Contains(n, "model.encoder.layer")
  }

  /** Backbone parameter owned by the embeddings or by an encoder layer. */
  predicate IsLayerOwned(n: string)
  {
    Contains(n, "model.embeddings") || Contains(n, "model.encoder.layer")
  }

  /** Every top-level name falls into exactly one of head, extra and layer-owned. */
  lemma Classification(n: string)
    ensures IsHead(n) || IsExtra(n) || IsLayerOwned(n)
    ensures !(IsHead(n) && IsExtra(n))
    ensures !(IsHead(n) && IsLayerOwned(n))
    ensures !(IsExtra(n) && IsLayerOwned(n))
  {
    if Contains(n, "model.embeddings") {
      ContainsPrefix(n, "model.embeddings", "model");
    }
    if Contains(n, "model.encoder.layer") {
      ContainsPrefix(n, "model.encoder.layer", "model");
    }
  }
}
