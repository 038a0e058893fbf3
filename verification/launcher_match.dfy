/**
  The launcher's matcher.  It matches the characters of a query one by one at their first place in
  the rest of the candidate and charges the bytes skipped; candidates are ranked by that score, then
  by how often and how recently they were used, then by name.
 */
module LauncherMatch {
  import opened Wrappers

  /** A Unicode scalar value. */
  type Scalar = c: int | 0 <= c < 0x11_0000

  type Text = seq<Scalar>

  function Utf8Length(c: Scalar): (r: nat)
    ensures 1 <= r <= 4
  {
    if c < 0x80 then 1 else if c < 0x800 then 2 else if c < 0x1_0000 then 3 else 4
  }

  /** The byte offset of the `k`th character. */
  function Offset(text: Text, k: nat): nat
    requires k <= |text|
  {
    if k == 0 then 0 else Offset(text, k - 1) + Utf8Length(text[k - 1])
  }

  lemma {:induction false} OffsetGrows(text: Text, i: nat, j: nat)
    requires i <= j <= |text|
    ensures Offset(text, i) <= Offset(text, j)
    decreases j
  {
    if i < j {
      OffsetGrows(text, i, j - 1);
    }
  }

  // ---- Embeddings --------------------------------------------------------------------------------

  /** Places for the characters of the query, in order, from the character `from` on. */
  predicate Embeds(query: Text, text: Text, from: nat, places: seq<nat>)
    requires from <= |text|
    decreases |query|
  {
    if query == [] then places == []
    else
      && places != [] && from <= places[0] < |text| && text[places[0]] == query[0]
      && Embeds(query[1..], text, places[0] + 1, places[1..])
  }

  /** The gap formula: 100 for each character, less the bytes skipped before it. */
  function GapScore(query: Text, text: Text, from: nat, places: seq<nat>): int
    requires from <= |text| && Embeds(query, text, from, places)
    decreases |query|
  {
    if query == [] then 0
    else
      100 - (Offset(text, places[0]) - Offset(text, from))
      + GapScore(query[1..], text, places[0] + 1, places[1..])
  }

  /** The query is a subsequence of the text. */
  ghost predicate Subsequence(query: Text, text: Text) {
    exists places :: Embeds(query, text, 0, places)
  }

  /**
    In closed form: 100 for each character and back the bytes of the query, less all bytes up to the end
    of the last match.  Between the start and that end, the places in between do not matter.
   */
  lemma {:induction false} GapScoreInBytes(query: Text, text: Text, from: nat, places: seq<nat>)
    requires from <= |text| && Embeds(query, text, from, places) && query != []
    ensures |places| == |query| && places[|places| - 1] < |text|
    ensures GapScore(query, text, from, places)
            == 100 * |query| + Bytes(query) - (Offset(text, places[|places| - 1] + 1) - Offset(text, from))
    decreases |query|
  {
    if |query| == 1 {
      assert query[1..] == [] && places[1..] == [];
    } else {
      GapScoreInBytes(query[1..], text, places[0] + 1, places[1..]);
    }
  }

  function Bytes(text: Text): nat {
    if text == [] then 0 else Utf8Length(text[0]) + Bytes(text[1..])
  }

  // ---- The matcher -------------------------------------------------------------------------------

  /** The first place of a character from `from` on. */
  function Find(text: Text, from: nat, c: Scalar): (r: Option<nat>)
    requires from <= |text|
    ensures r.Some? ==> from <= r.value < |text| && text[r.value] == c
    ensures forall i :: from <= i < (if r.Some? then r.value else |text|) ==> text[i] != c
    decreases |text| - from
  {
    if from == |text| then None
    else if text[from] == c then Some(from)
    else Find(text, from + 1, c)
  }

  function Greedy(query: Text, text: Text, from: nat): Option<seq<nat>>
    requires from <= |text|
    decreases |query|
  {
    if query == [] then Some([])
    else
      var first := Find(text, from, query[0]);
      if first.None? then None
      else
        var rest := Greedy(query[1..], text, first.value + 1);
        if rest.None? then None else Some([first.value] + rest.value)
  }

  lemma {:induction false} GreedyEmbeds(query: Text, text: Text, from: nat)
    requires from <= |text|
    ensures Greedy(query, text, from).Some? ==> Embeds(query, text, from, Greedy(query, text, from).value)
    decreases |query|
  {
    if query != [] {
      var first := Find(text, from, query[0]);
      if first.Some? {
        GreedyEmbeds(query[1..], text, first.value + 1);
        var rest := Greedy(query[1..], text, first.value + 1);
        if rest.Some? {
          assert ([first.value] + rest.value)[1..] == rest.value;
        }
      }
    }
  }

  /** Starting no later than any embedding does, the greedy choice finds one that skips no more bytes. */
  lemma {:induction false} GreedyIsBest(query: Text, text: Text, from: nat, later: nat, places: seq<nat>)
    requires from <= later <= |text| && Embeds(query, text, later, places)
    ensures Greedy(query, text, from).Some?
    ensures Embeds(query, text, from, Greedy(query, text, from).value)
    ensures query != [] ==>
              GapScore(query, text, from, Greedy(query, text, from).value) - Offset(text, from)
              >= GapScore(query, text, later, places) - Offset(text, later)
    decreases |query|
  {
    if query != [] {
      var first := Find(text, from, query[0]).value;
      assert first <= places[0];
      GreedyIsBest(query[1..], text, first + 1, places[0] + 1, places[1..]);
      GreedyEmbeds(query, text, from);
      var rest := Greedy(query[1..], text, first + 1).value;
      assert Greedy(query, text, from).value == [first] + rest;
      assert ([first] + rest)[1..] == rest;
      OffsetGrows(text, first, places[0]);
    }
  }

  /** The score is the best of the gap formula over all embeddings of the query. */
  ghost predicate BestScore(query: Text, text: Text, score: int) {
    && (exists places :: Embeds(query, text, 0, places) && GapScore(query, text, 0, places) == score)
    && (forall places :: Embeds(query, text, 0, places) ==> GapScore(query, text, 0, places) <= score)
  }

  function Score(query: Text, text: Text): Option<int> {
    var places := Greedy(query, text, 0);
    if places.None? then None
    else
      GreedyEmbeds(query, text, 0);
      Some(GapScore(query, text, 0, places.value))
  }

  /** The matcher is complete and optimal. */
  lemma ScoreIsBest(query: Text, text: Text)
    ensures Score(query, text).Some? <==> Subsequence(query, text)
    ensures Score(query, text).Some? ==> BestScore(query, text, Score(query, text).value)
  {
    GreedyEmbeds(query, text, 0);
    forall places | Embeds(query, text, 0, places)
      ensures Score(query, text).Some? && GapScore(query, text, 0, places) <= Score(query, text).value
    {
      GreedyIsBest(query, text, 0, 0, places);
    }
  }

  lemma {:induction false} GreedyStep(query: Text, text: Text, k: nat, from: nat)
    requires k < |query| && from <= |text|
    ensures var first := Find(text, from, query[k]);
            Remaining(query, text, k, from)
            == if first.None? then None
               else
                 var rest := Remaining(query, text, k + 1, first.value + 1);
                 if rest.None? then None
                 else Some(100 - (Offset(text, first.value) - Offset(text, from)) + rest.value)
  {
    assert query[k..][1..] == query[k + 1..];
    GreedyEmbeds(query[k..], text, from);
    var first := Find(text, from, query[k]);
    if first.Some? {
      GreedyEmbeds(query[k + 1..], text, first.value + 1);
      var rest := Greedy(query[k + 1..], text, first.value + 1);
      if rest.Some? {
        assert ([first.value] + rest.value)[1..] == rest.value;
      }
    }
  }

  /** What the rest of the query from character `k` on scores after the text's character `from`. */
  function Remaining(query: Text, text: Text, k: nat, from: nat): Option<int>
    requires k <= |query| && from <= |text|
  {
    var places := Greedy(query[k..], text, from);
    if places.None? then None
    else
      GreedyEmbeds(query[k..], text, from);
      Some(GapScore(query[k..], text, from, places.value))
  }

  /** The matching loop; a score exactly for subsequences, and then the best one. */
  method FuzzyScore(query: Text, text: Text) returns (result: Option<int>)
    ensures result == Score(query, text)
    ensures result.Some? <==> Subsequence(query, text)
    ensures result.Some? ==> BestScore(query, text, result.value)
  {
    ScoreIsBest(query, text);
    assert query[0..] == query;
    if query == [] {
      return Some(0);
    }
    var position: nat, score: int := 0, 0;
    for k := 0 to |query|
      invariant position <= |text|
      invariant Remaining(query, text, 0, 0) == Plus(score, Remaining(query, text, k, position))
    {
      GreedyStep(query, text, k, position);
      var found := Find(text, position, query[k]);
      if found.None? {
        return None;
      }
      score := score + 100 - (Offset(text, found.value) - Offset(text, position));
      position := found.value + 1;
    }
    return Some(score);
  }

  function Plus(x: int, y: Option<int>): Option<int> {
    if y.None? then None else Some(x + y.value)
  }

  // ---- Ranking -----------------------------------------------------------------------------------

  datatype Usage = Usage(count: nat, lastUsed: nat)

  datatype Scored = Scored(name: Text, fuzzy: int, count: nat, lastUsed: nat)

  /** Byte order of the names, which is the order of their scalar values. */
  predicate NameAtMost(a: Text, b: Text) {
    a == [] || (b != [] && (a[0] < b[0] || (a[0] == b[0] && NameAtMost(a[1..], b[1..]))))
  }

  /** Best score first, then most used, then most recently used, then by name. */
  predicate Before(a: Scored, b: Scored) {
    if a.fuzzy != b.fuzzy then a.fuzzy > b.fuzzy
    else if a.count != b.count then a.count > b.count
    else if a.lastUsed != b.lastUsed then a.lastUsed > b.lastUsed
    else NameAtMost(a.name, b.name)
  }

  lemma {:induction false} NamesAreOrdered(a: Text, b: Text, c: Text)
    ensures NameAtMost(a, b) || NameAtMost(b, a)
    ensures NameAtMost(a, b) && NameAtMost(b, a) ==> a == b
    ensures NameAtMost(a, b) && NameAtMost(b, c) ==> NameAtMost(a, c)
    decreases |a| + |b|
  {
    if a != [] && b != [] {
      NamesAreOrdered(a[1..], b[1..], if c == [] then [] else c[1..]);
      assert a == [a[0]] + a[1..] && b == [b[0]] + b[1..];
    }
  }

  /** The ranking order is a total order on scored names. */
  lemma BeforeIsTotalOrder(a: Scored, b: Scored, c: Scored)
    ensures Before(a, b) || Before(b, a)
    ensures Before(a, b) && Before(b, a) ==> a == b
    ensures Before(a, b) && Before(b, c) ==> Before(a, c)
  {
    NamesAreOrdered(a.name, b.name, c.name);
  }

  lemma {:induction false} ProperPrefixIsBefore(a: Text, b: Text)
    requires a < b
    ensures NameAtMost(a, b) && !NameAtMost(b, a)
  {
    if a != [] {
      assert a[0] == b[0] && a[1..] < b[1..];
      ProperPrefixIsBefore(a[1..], b[1..]);
    }
  }

  /** Of two names, the one with the smaller scalar value where they first differ comes first. */
  lemma {:induction false} FirstDifferenceDecides(a: Text, b: Text, k: nat)
    requires k < |a| && k < |b| && a[..k] == b[..k] && a[k] < b[k]
    ensures NameAtMost(a, b) && !NameAtMost(b, a)
  {
    if k > 0 {
      assert a[0] == a[..k][0] == b[..k][0] == b[0];
      assert a[1..][..k - 1] == a[..k][1..] && b[1..][..k - 1] == b[..k][1..];
      FirstDifferenceDecides(a[1..], b[1..], k - 1);
    }
  }

  /** The order is lexicographic: each criterion decides alone among those equal in the ones before it. */
  lemma BeforeIsLexicographic(a: Scored, b: Scored)
    ensures a.fuzzy > b.fuzzy ==> Before(a, b) && !Before(b, a)
    ensures a.fuzzy == b.fuzzy && a.count > b.count ==> Before(a, b) && !Before(b, a)
    ensures a.fuzzy == b.fuzzy && a.count == b.count && a.lastUsed > b.lastUsed ==> Before(a, b) && !Before(b, a)
    ensures a.fuzzy == b.fuzzy && a.count == b.count && a.lastUsed == b.lastUsed && NameFirst(a.name, b.name) ==>
              Before(a, b) && !Before(b, a)
  {
    if a.name < b.name {
      ProperPrefixIsBefore(a.name, b.name);
    } else if NameFirst(a.name, b.name) {
      var k: nat :| k < |a.name| && k < |b.name| && a.name[..k] == b.name[..k] && a.name[k] < b.name[k];
      FirstDifferenceDecides(a.name, b.name, k);
    }
  }

  /** A proper prefix comes first, and otherwise the smaller scalar value at the first difference. */
  predicate NameFirst(a: Text, b: Text) {
    a < b || exists k: nat :: k < |a| && k < |b| && a[..k] == b[..k] && a[k] < b[k]
  }

  predicate Ranked(s: seq<Scored>) {
    forall i, j :: 0 <= i < j < |s| ==> Before(s[i], s[j])
  }

  function Insert(x: Scored, s: seq<Scored>): (r: seq<Scored>)
    ensures multiset(r) == multiset(s) + multiset{x}
  {
    if s == [] || Before(x, s[0]) then [x] + s
    else
      assert s == [s[0]] + s[1..];
      [s[0]] + Insert(x, s[1..])
  }

  function Sort(s: seq<Scored>): (r: seq<Scored>)
    ensures multiset(r) == multiset(s)
  {
    if s == [] then []
    else
      assert s == [s[0]] + s[1..];
      Insert(s[0], Sort(s[1..]))
  }

  lemma {:induction false} InsertKeepsRanked(x: Scored, s: seq<Scored>)
    requires Ranked(s)
    ensures Ranked(Insert(x, s))
  {
    if s == [] {
    } else if Before(x, s[0]) {
      forall j | 0 <= j < |s| ensures Before(x, s[j]) {
        BeforeIsTotalOrder(x, s[0], s[j]);
      }
    } else {
      BeforeIsTotalOrder(x, s[0], x);
      InsertKeepsRanked(x, s[1..]);
      var rest := Insert(x, s[1..]);
      forall y | y in rest ensures Before(s[0], y) {
        assert y in multiset(rest);
        assert y == x || y in s[1..];
      }
    }
  }

  lemma {:induction false} SortRanks(s: seq<Scored>)
    ensures Ranked(Sort(s))
  {
    if s != [] {
      SortRanks(s[1..]);
      InsertKeepsRanked(s[0], Sort(s[1..]));
    }
  }

  /** There is only one ranking of the same scored names. */
  lemma {:induction false} RankingIsUnique(a: seq<Scored>, b: seq<Scored>)
    requires Ranked(a) && Ranked(b) && multiset(a) == multiset(b)
    ensures a == b
  {
    if a == [] {
      assert |multiset(b)| == 0;
    } else {
      SameFirst(a, b);
      WithoutFirst(a, b);
      assert a == [a[0]] + a[1..] && b == [b[0]] + b[1..];
      RankingIsUnique(a[1..], b[1..]);
    }
  }

  lemma SameFirst(a: seq<Scored>, b: seq<Scored>)
    requires Ranked(a) && Ranked(b) && multiset(a) == multiset(b) && a != []
    ensures b != [] && a[0] == b[0]
  {
    assert a[0] in multiset(b);
    assert b[0] in multiset(a);
    FirstIsFirst(a, b[0]);
    FirstIsFirst(b, a[0]);
    BeforeIsTotalOrder(a[0], b[0], a[0]);
  }

  lemma WithoutFirst(a: seq<Scored>, b: seq<Scored>)
    requires a != [] && b != [] && a[0] == b[0] && multiset(a) == multiset(b)
    ensures multiset(a[1..]) == multiset(b[1..])
  {
    assert a == [a[0]] + a[1..] && b == [b[0]] + b[1..];
    assert multiset(a) == multiset{a[0]} + multiset(a[1..]);
    assert multiset(b) == multiset{a[0]} + multiset(b[1..]);
    assert multiset(a[1..]) == multiset(a) - multiset{a[0]};
    assert multiset(b[1..]) == multiset(b) - multiset{a[0]};
  }

  lemma FirstIsFirst(s: seq<Scored>, x: Scored)
    requires Ranked(s) && x in s
    ensures Before(s[0], x)
  {
    NamesAreOrdered(x.name, x.name, x.name);
  }

  // ---- The ranked list ---------------------------------------------------------------------------

  function UsageOf(entries: map<Text, Usage>, name: Text): Usage {
    if name in entries then entries[name] else Usage(0, 0)
  }

  function ScoredAs(lower: Text -> Text, entries: map<Text, Usage>, query: Text, name: Text): Option<Scored> {
    var fuzzy := Score(lower(query), lower(name));
    if fuzzy.None? then None
    else Some(Scored(name, fuzzy.value, UsageOf(entries, name).count, UsageOf(entries, name).lastUsed))
  }

  /** The candidates that match, with what they are ranked by. */
  function Matching(lower: Text -> Text, entries: map<Text, Usage>, query: Text, candidates: seq<Text>): seq<Scored> {
    if candidates == [] then []
    else
      var last := ScoredAs(lower, entries, query, candidates[|candidates| - 1]);
      Matching(lower, entries, query, candidates[..|candidates| - 1]) + if last.Some? then [last.value] else []
  }

  function Names(s: seq<Scored>): (r: seq<Text>)
    ensures |r| == |s|
    ensures forall i :: 0 <= i < |r| ==> r[i] == s[i].name
  {
    seq(|s|, i requires 0 <= i < |s| => s[i].name)
  }

  function RankedNames(lower: Text -> Text, entries: map<Text, Usage>, query: Text, candidates: seq<Text>): seq<Text> {
    Names(Sort(Matching(lower, entries, query, candidates)))
  }

  /** The filter, the sort and the projection to names. */
  method Rank(lower: Text -> Text, entries: map<Text, Usage>, query: Text, candidates: seq<Text>)
    returns (names: seq<Text>)
    ensures names == RankedNames(lower, entries, query, candidates)
  {
    var lowered := lower(query);
    var scored := [];
    for i := 0 to |candidates|
      invariant scored == Matching(lower, entries, query, candidates[..i])
    {
      assert candidates[..i + 1][..i] == candidates[..i];
      var fuzzy := FuzzyScore(lowered, lower(candidates[i]));
      if fuzzy.Some? {
        var usage := UsageOf(entries, candidates[i]);
        scored := scored + [Scored(candidates[i], fuzzy.value, usage.count, usage.lastUsed)];
      }
    }
    assert candidates[..|candidates|] == candidates;
    return Names(Sort(scored));
  }

  lemma {:induction false} MatchingCounts(lower: Text -> Text, entries: map<Text, Usage>, query: Text,
                                          candidates: seq<Text>, s: Scored)
    ensures multiset(Matching(lower, entries, query, candidates))[s]
         == if ScoredAs(lower, entries, query, s.name) == Some(s) then multiset(candidates)[s.name] else 0
  {
    if candidates != [] {
      var before, last := candidates[..|candidates| - 1], candidates[|candidates| - 1];
      assert candidates == before + [last];
      MatchingCounts(lower, entries, query, before, s);
    }
  }

  lemma NamesOfFirst(s: seq<Scored>)
    requires s != []
    ensures multiset(Names(s)) == multiset{s[0].name} + multiset(Names(s[1..]))
  {
    assert Names(s) == [s[0].name] + Names(s[1..]);
  }

  lemma {:induction false} NamesCount(lower: Text -> Text, entries: map<Text, Usage>, query: Text, s: seq<Scored>,
                                      name: Text)
    requires forall x :: x in s ==> ScoredAs(lower, entries, query, x.name) == Some(x)
    ensures var x := ScoredAs(lower, entries, query, name);
            multiset(Names(s))[name] == if x.Some? then multiset(s)[x.value] else 0
  {
    if s != [] {
      NamesCount(lower, entries, query, s[1..], name);
      NamesOfFirst(s);
      assert s == [s[0]] + s[1..];
      assert s[0] in s;
    }
  }

  lemma SortedAreScored(lower: Text -> Text, entries: map<Text, Usage>, query: Text, candidates: seq<Text>)
    ensures forall x :: x in Sort(Matching(lower, entries, query, candidates)) ==>
                          ScoredAs(lower, entries, query, x.name) == Some(x)
  {
    var sorted := Sort(Matching(lower, entries, query, candidates));
    forall x | x in sorted ensures ScoredAs(lower, entries, query, x.name) == Some(x) {
      assert x in multiset(sorted);
      MatchingCounts(lower, entries, query, candidates, x);
    }
  }

  lemma NamesAreRanked(lower: Text -> Text, entries: map<Text, Usage>, query: Text, s: seq<Scored>)
    requires Ranked(s) && forall x :: x in s ==> ScoredAs(lower, entries, query, x.name) == Some(x)
    ensures forall i, j :: 0 <= i < j < |Names(s)| ==>
                             var a := ScoredAs(lower, entries, query, Names(s)[i]);
                             var b := ScoredAs(lower, entries, query, Names(s)[j]);
                             a.Some? && b.Some? && Before(a.value, b.value)
  {
    var names := Names(s);
    forall i, j | 0 <= i < j < |names|
      ensures var a := ScoredAs(lower, entries, query, names[i]);
              var b := ScoredAs(lower, entries, query, names[j]);
              a.Some? && b.Some? && Before(a.value, b.value)
    {
      assert s[i] in s && s[j] in s && names[i] == s[i].name && names[j] == s[j].name;
    }
  }

  /**
    The ranked list holds each candidate that matches, as often as it was given, and no other; each
    name comes before those it outranks.
   */
  lemma RankIsSortedPermutation(lower: Text -> Text, entries: map<Text, Usage>, query: Text, candidates: seq<Text>)
    ensures var names := RankedNames(lower, entries, query, candidates);
            && (forall name :: multiset(names)[name] ==
                               if Subsequence(lower(query), lower(name)) then multiset(candidates)[name] else 0)
            && (forall i, j :: 0 <= i < j < |names| ==>
                                 var a := ScoredAs(lower, entries, query, names[i]);
                                 var b := ScoredAs(lower, entries, query, names[j]);
                                 a.Some? && b.Some? && Before(a.value, b.value))
  {
    var sorted := Sort(Matching(lower, entries, query, candidates));
    SortRanks(Matching(lower, entries, query, candidates));
    SortedAreScored(lower, entries, query, candidates);
    NamesAreRanked(lower, entries, query, sorted);
    forall name ensures multiset(Names(sorted))[name] ==
                        if Subsequence(lower(query), lower(name)) then multiset(candidates)[name] else 0 {
      ScoreIsBest(lower(query), lower(name));
      NamesCount(lower, entries, query, sorted, name);
      var x := ScoredAs(lower, entries, query, name);
      if x.Some? {
        MatchingCounts(lower, entries, query, candidates, x.value);
      }
    }
  }

  /** The ranking does not depend on the order in which the candidates are given. */
  lemma RankIgnoresOrder(lower: Text -> Text, entries: map<Text, Usage>, query: Text, a: seq<Text>, b: seq<Text>)
    requires multiset(a) == multiset(b)
    ensures RankedNames(lower, entries, query, a) == RankedNames(lower, entries, query, b)
  {
    var left, right := Matching(lower, entries, query, a), Matching(lower, entries, query, b);
    forall s ensures multiset(left)[s] == multiset(right)[s] {
      MatchingCounts(lower, entries, query, a, s);
      MatchingCounts(lower, entries, query, b, s);
    }
    assert multiset(left) == multiset(right);
    SortRanks(left);
    SortRanks(right);
    RankingIsUnique(Sort(left), Sort(right));
  }
}
