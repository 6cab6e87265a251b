/** What the parser finds in its rewritten body, in the characters around a word. */
module ReplyTokens {
  import opened Sequences
  import opened Decimals
  import opened ReplyParser

  /** A letter, a digit or an underscore. */
  predicate JoinsWords(c: char) { 'a' <= c <= 'z' || 'A' <= c <= 'Z' || '0' <= c <= '9' || c == '_' }

  /** t stands at i as a word of its own. */
  predicate StandsAt(s: string, i: nat, t: string) {
    && i + |t| <= |s| && s[i..i + |t|] == t
    && (i == 0 || !JoinsWords(s[i - 1])) && (i + |t| == |s| || !JoinsWords(s[i + |t|]))
  }

  predicate Stands(s: string, t: string) { exists i :: 0 <= i < |s| && StandsAt(s, i, t) }

  /** rec- and three digits, or r- and eight hex digits. */
  predicate IsSelector(t: string) {
    || (|t| == 7 && t[..4] == "rec-" && forall k :: 4 <= k < 7 ==> '0' <= t[k] <= '9')
    || (|t| == 10 && t[..2] == "r-" && forall k :: 2 <= k < 10 ==> '0' <= t[k] <= '9' || 'a' <= t[k] <= 'f')
  }

  lemma WordAtIff(s: string, i: nat, t: string)
    ensures WordAt(s, i, t) <==> StandsAt(s, i, t)
  {}

  lemma RecIdIff(s: string, i: nat)
    ensures RecIdAt(s, i) <==> i + 7 <= |s| && StandsAt(s, i, s[i..i + 7]) && s[i..i + 4] == "rec-"
                               && forall k :: i + 4 <= k < i + 7 ==> '0' <= s[k] <= '9'
  {
    if i + 7 <= |s| {
      assert s[i..i + 4] == s[i..i + 7][..4];
    }
  }

  lemma UidIff(s: string, i: nat)
    ensures UidAt(s, i) <==> i + 10 <= |s| && StandsAt(s, i, s[i..i + 10]) && s[i..i + 2] == "r-"
                             && forall k :: i + 2 <= k < i + 10 ==> '0' <= s[k] <= '9' || 'a' <= s[k] <= 'f'
  {
    if i + 10 <= |s| {
      assert s[i..i + 2] == s[i..i + 10][..2];
    }
  }

  /** What is collected at one place: the selector that stands there. */
  lemma ReadAt(s: string, i: nat, t: string)
    requires i < |s|
    ensures (RecIdAt(s, i) && t == s[i..i + 7]) || (!RecIdAt(s, i) && UidAt(s, i) && t == s[i..i + 10]) <==>
            IsSelector(t) && StandsAt(s, i, t)
  {
    hide RecIdAt, UidAt;
    RecIdIff(s, i);
    UidIff(s, i);
    if RecIdAt(s, i) {
      SliceChars(s, i, s[i..i + 7]);
      assert s[i..i + 7][..4] == s[i..i + 4];
    }
    if UidAt(s, i) {
      SliceChars(s, i, s[i..i + 10]);
      assert s[i..i + 10][..2] == s[i..i + 2];
    }
    if StandsAt(s, i, t) && IsSelector(t) {
      SliceChars(s, i, t);
      SelectorAt(s, i, t);
    }
  }

  lemma SliceChars(s: string, i: nat, t: string)
    requires i + |t| <= |s| && s[i..i + |t|] == t
    ensures forall k :: 0 <= k < |t| ==> s[i + k] == t[k]
  {
    forall k | 0 <= k < |t| ensures s[i + k] == t[k] {
      assert s[i..i + |t|][k] == s[i + k];
    }
  }

  lemma SelectorAt(s: string, i: nat, t: string)
    requires i + |t| <= |s| && s[i..i + |t|] == t && IsSelector(t)
    requires forall k :: 0 <= k < |t| ==> s[i + k] == t[k]
    ensures |t| == 7 ==> s[i..i + 4] == "rec-" && forall k :: i + 4 <= k < i + 7 ==> '0' <= s[k] <= '9'
    ensures |t| == 10 ==>
              && s[i..i + 2] == "r-" && s[i + 1] == '-'
              && forall k :: i + 2 <= k < i + 10 ==> '0' <= s[k] <= '9' || 'a' <= s[k] <= 'f'
    ensures |t| == 7 || |t| == 10
  {
    if |t| == 7 {
      assert s[i..i + 4] == t[..4];
      forall k | i + 4 <= k < i + 7 ensures '0' <= s[k] <= '9' {
        assert s[i + (k - i)] == t[k - i];
      }
    } else {
      assert s[i..i + 2] == t[..2];
      assert t[1] == '-' && s[i + 1] == t[1];
      forall k | i + 2 <= k < i + 10 ensures '0' <= s[k] <= '9' || 'a' <= s[k] <= 'f' {
        assert s[i + (k - i)] == t[k - i];
      }
    }
  }

  lemma {:induction false} CollectedAre(s: string, i: nat, t: string)
    ensures t in IdsFrom(s, i) <==> exists k: nat :: i <= k < |s| && IsSelector(t) && StandsAt(s, k, t)
    decreases |s| - i
  {
    hide RecIdAt, UidAt, IsSelector, StandsAt;
    if i < |s| {
      ReadAt(s, i, t);
      CollectedAre(s, i + 1, t);
      if IsSelector(t) && StandsAt(s, i, t) {
        assert t in IdsFrom(s, i);
      }
    }
  }

  /** The ids of a reply are exactly the selectors that stand as words of their own in its rewritten body. */
  lemma IdsAre(raw: string, t: string)
    ensures t in Parse(raw).ids <==> IsSelector(t) && Stands(Canonical(raw), t)
  {
    hide Canonical, IsSelector, StandsAt, IdsFrom, FirstOf, Filters;
    CollectedAre(Canonical(raw), 0, t);
  }

  lemma {:induction false} FoundIff(s: string, t: string, i: nat)
    ensures FindWord(s, t, i).Some? <==> exists k :: i <= k < |s| && StandsAt(s, k, t)
    decreases |s| - i
  {
    hide StandsAt, WordAt;
    if i < |s| {
      WordAtIff(s, i, t);
      FoundIff(s, t, i + 1);
    }
  }

  /** The verb of a reply is the first of the four that stands in its rewritten body, or unknown. */
  lemma VerbIs(raw: string)
    ensures var s := Canonical(raw);
            Parse(raw).verb == if Stands(s, "implement") then "implement"
                               else if Stands(s, "skip") then "skip"
                               else if Stands(s, "modify") then "modify"
                               else if Stands(s, "merge") then "merge"
                               else "unknown"
  {
    hide Canonical, StandsAt, IdsFrom, Filters, FindWord;
    var s := Canonical(raw);
    FoundIff(s, "implement", 0);
    FoundIff(s, "skip", 0);
    FoundIff(s, "modify", 0);
    FoundIff(s, "merge", 0);
    FirstStep(s, "implement", ["skip", "modify", "merge"]);
    FirstStep(s, "skip", ["modify", "merge"]);
    FirstStep(s, "modify", ["merge"]);
    FirstStep(s, "merge", []);
  }

  lemma FirstStep(s: string, u: string, rest: seq<string>)
    ensures FirstOf(s, [u] + rest) == if FindWord(s, u, 0).Some? then u else FirstOf(s, rest)
  {
    hide FindWord;
    assert ([u] + rest)[1..] == rest;
  }
}
