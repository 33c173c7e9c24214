/** What the order and the limit of the listing decide: which answers the contextual match can give
    for one and the same table. */
module ContextListing {
  import opened Options
  import opened ActionMemory
  import opened ContextMemory

  /** A listing the database may give; rows of equal totals come in any order. */
  ghost predicate Listing(all: seq<Record>, rows: map<Key, Row>) {
    Lists(all, rows) && ByTotal(all)
  }

  // ---- The rows an exact match can answer with

  /** Row `k` is at the point asked for, and no other row there has a greater total. */
  ghost predicate Foremost(rows: map<Key, Row>, q: Query, k: Key) {
    k in rows && AtPoint(q)(k) && forall k' :: k' in rows && AtPoint(q)(k') ==> rows[k'].total <= rows[k].total
  }

  /** Some listing of the table answers with the row of `k`. */
  ghost predicate CanAnswer(rows: map<Key, Row>, q: Query, k: Key) {
    exists all: seq<Record>, i: int :: AnswersWith(all, rows, q, k, i)
  }

  /** The listing is one the database may give, and its first exact record is that of `k`. */
  ghost predicate AnswersWith(all: seq<Record>, rows: map<Key, Row>, q: Query, k: Key, i: int) {
    Listing(all, rows) && FirstExactAt(Limited(all), q, i) && all[i].key == k
  }

  /** The keys of the rows with a greater total. */
  ghost function Greater(rows: map<Key, Row>, total: int): set<Key> {
    set k | k in rows && rows[k].total > total
  }

  function Swapped(all: seq<Record>, p: int, i: int): seq<Record>
    requires 0 <= p < |all| && 0 <= i < |all|
  {
    all[p := all[i]][i := all[p]]
  }

  lemma SwappedLists(all: seq<Record>, p: int, i: int, rows: map<Key, Row>)
    requires Lists(all, rows) && 0 <= p < |all| && 0 <= i < |all|
    ensures Lists(Swapped(all, p, i), rows)
  {
    var other := Swapped(all, p, i);
    SwappedKeys(all, p, i);
    forall k | k in rows ensures Listed(other, k) {
      var n :| 0 <= n < |all| && all[n].key == k;
      assert other[if n == p then i else if n == i then p else n].key == k;
    }
  }

  lemma SwappedKeys(all: seq<Record>, p: int, i: int)
    requires DistinctKeys(all) && 0 <= p < |all| && 0 <= i < |all|
    ensures DistinctKeys(Swapped(all, p, i))
  {
  }

  lemma SwappedByTotal(all: seq<Record>, p: int, i: int)
    requires ByTotal(all) && 0 <= p < |all| && 0 <= i < |all| && all[p].row.total == all[i].row.total
    ensures ByTotal(Swapped(all, p, i))
  {
    var other := Swapped(all, p, i);
    assert forall n :: 0 <= n < |all| ==> other[n].row.total == all[n].row.total;
  }

  /** The first exact record of an ordered listing is a foremost row. */
  lemma FirstIsForemost(all: seq<Record>, rows: map<Key, Row>, q: Query, p: int)
    requires Listing(all, rows) && FirstExactAt(all, q, p)
    ensures Foremost(rows, q, all[p].key)
  {
    forall k | k in rows && AtPoint(q)(k) ensures rows[k].total <= all[p].row.total {
      assert Listed(all, k);
      var i :| 0 <= i < |all| && all[i].key == k;
      assert p <= i;
      assert p < i ==> all[p].row.total >= all[i].row.total;
    }
  }

  lemma FirstInLimited(all: seq<Record>, q: Query, p: int)
    ensures FirstExactAt(Limited(all), q, p) <==> FirstExactAt(all, q, p) && p < LIST_LIMIT
  {
    if FirstExactAt(Limited(all), q, p) {
      assert forall j :: 0 <= j < p ==> Limited(all)[j] == all[j];
    }
  }

  lemma AnswersAreForemost(rows: map<Key, Row>, q: Query, k: Key)
    requires CanAnswer(rows, q, k)
    ensures Foremost(rows, q, k) && |Greater(rows, rows[k].total)| < LIST_LIMIT
  {
    var all: seq<Record>, p: int :| AnswersWith(all, rows, q, k, p);
    FirstInLimited(all, q, p);
    FirstIsForemost(all, rows, q, p);
    GreaterComeBefore(all, rows, p);
  }

  // Where a row comes in an ordered listing

  ghost function KeysBefore(all: seq<Record>, p: nat): set<Key>
    requires p <= |all|
  {
    set i | 0 <= i < p :: all[i].key
  }

  lemma {:induction false} CountKeysBefore(all: seq<Record>, p: nat)
    requires DistinctKeys(all) && p <= |all|
    ensures |KeysBefore(all, p)| == p
  {
    if p > 0 {
      CountKeysBefore(all, p - 1);
      assert KeysBefore(all, p) == KeysBefore(all, p - 1) + {all[p - 1].key};
      assert all[p - 1].key !in KeysBefore(all, p - 1);
    }
  }

  lemma SubsetSize(a: set<Key>, b: set<Key>)
    requires a <= b
    ensures |a| <= |b|
  {
    assert b == a + (b - a);
  }

  lemma GreaterComeBefore(all: seq<Record>, rows: map<Key, Row>, p: nat)
    requires Listing(all, rows) && p < |all|
    ensures |Greater(rows, all[p].row.total)| <= p
  {
    forall k | k in Greater(rows, all[p].row.total) ensures k in KeysBefore(all, p) {
      assert Listed(all, k);
      var i :| 0 <= i < |all| && all[i].key == k;
    }
    SubsetSize(Greater(rows, all[p].row.total), KeysBefore(all, p));
    CountKeysBefore(all, p);
  }

  lemma GreatersFill(all: seq<Record>, rows: map<Key, Row>, total: int, p: nat)
    requires Lists(all, rows) && p <= |all| && forall i :: 0 <= i < p ==> all[i].row.total > total
    ensures p <= |Greater(rows, total)|
  {
    SubsetSize(KeysBefore(all, p), Greater(rows, total));
    CountKeysBefore(all, p);
  }

  /** The first of the records whose total is no greater. */
  lemma {:induction false} TieStart(all: seq<Record>, total: int, i: nat) returns (p: nat)
    requires i < |all| && all[i].row.total <= total
    ensures p <= i && all[p].row.total <= total && forall j :: 0 <= j < p ==> all[j].row.total > total
    decreases i
  {
    if j: nat :| j < i && all[j].row.total <= total {
      p := TieStart(all, total, j);
    } else {
      p := i;
    }
  }

  /** `k` may come last: no row has a smaller total, and none of the same total wants to come later. */
  ghost predicate MayBeLast(rows: map<Key, Row>, last: Key -> bool, k: Key) {
    && k in rows
    && (forall k' :: k' in rows ==> rows[k].total <= rows[k'].total)
    && (forall k' :: k' in rows && rows[k'].total == rows[k].total && last(k') ==> last(k))
  }

  lemma {:induction false} LastRow(rows: map<Key, Row>, last: Key -> bool) returns (k: Key)
    requires rows.Keys != {}
    ensures MayBeLast(rows, last, k)
    decreases |rows.Keys|
  {
    k :| k in rows.Keys;
    var rest := rows - {k};
    assert rest.Keys == rows.Keys - {k};
    assert forall k' :: k' in rows ==> k' == k || (k' in rest && rest[k'] == rows[k']);
    if rest.Keys != {} {
      var k' := LastRow(rest, last);
      if rows[k'].total < rows[k].total || (rows[k'].total == rows[k].total && last(k')) { k := k'; }
    }
  }

  /** Among equal totals, the rows that want to come last do. */
  ghost predicate TiesLast(all: seq<Record>, last: Key -> bool) {
    forall i, j :: 0 <= i < j < |all| && all[i].row.total == all[j].row.total && last(all[i].key) ==> last(all[j].key)
  }

  /** Every table can be listed in the order asked for, with any rows last among equal totals. */
  lemma {:induction false} OrderedListing(rows: map<Key, Row>, last: Key -> bool) returns (all: seq<Record>)
    ensures Listing(all, rows) && TiesLast(all, last)
    decreases |rows.Keys|
  {
    all := [];
    if rows.Keys != {} {
      var k := LastRow(rows, last);
      var rest := rows - {k};
      assert rest.Keys == rows.Keys - {k};
      var front := OrderedListing(rest, last);
      all := front + [Record(k, rows[k])];
      ListingGrows(front, rest, k, rows);
      OrderGrows(front, rest, last, k, rows);
    }
  }

  lemma OrderGrows(front: seq<Record>, rest: map<Key, Row>, last: Key -> bool, k: Key, rows: map<Key, Row>)
    requires Listing(front, rest) && TiesLast(front, last) && MayBeLast(rows, last, k) && rest == rows - {k}
    ensures ByTotal(front + [Record(k, rows[k])]) && TiesLast(front + [Record(k, rows[k])], last)
  {
    forall i | 0 <= i < |front| ensures front[i].key in rows && rows[front[i].key] == front[i].row {}
  }

  lemma ListingGrows(front: seq<Record>, rest: map<Key, Row>, k: Key, rows: map<Key, Row>)
    requires Lists(front, rest) && k in rows && rest == rows - {k}
    ensures Lists(front + [Record(k, rows[k])], rows)
  {
    var all := front + [Record(k, rows[k])];
    forall k' | k' in rows ensures Listed(all, k') {
      if k' == k {
        assert all[|front|].key == k;
      } else {
        assert Listed(front, k');
        var i :| 0 <= i < |front| && front[i].key == k';
        assert all[i].key == k';
      }
    }
  }

  lemma ForemostCanAnswer(rows: map<Key, Row>, q: Query, k: Key)
    requires Foremost(rows, q, k) && |Greater(rows, rows[k].total)| < LIST_LIMIT
    ensures CanAnswer(rows, q, k)
  {
    var all := OrderedListing(rows, AtPoint(q));
    assert Listed(all, k);
    var i :| 0 <= i < |all| && all[i].key == k;
    var p := TieStart(all, rows[k].total, i);
    GreatersFill(all, rows, rows[k].total, p);
    SwappedAnswers(all, rows, q, p, i);
  }

  lemma SwappedAnswers(all: seq<Record>, rows: map<Key, Row>, q: Query, p: int, i: int)
    requires Listing(all, rows) && 0 <= p <= i < |all| && p < LIST_LIMIT
    requires forall j :: 0 <= j < p ==> all[j].row.total > all[i].row.total
    requires Foremost(rows, q, all[i].key) && all[i].row.total >= all[p].row.total
    ensures CanAnswer(rows, q, all[i].key)
  {
    SwappedListing(all, p, i, rows);
    var other := Swapped(all, p, i);
    assert FirstExactAt(other, q, p);
    FirstInLimited(other, q, p);
    assert AnswersWith(other, rows, q, all[i].key, p);
  }

  /** The exact match can answer with any of the foremost rows, and with no other, unless the limit
      cuts them off: the order among equal totals is open. */
  lemma CanAnswerIff(rows: map<Key, Row>, q: Query, k: Key)
    ensures CanAnswer(rows, q, k) <==> Foremost(rows, q, k) && |Greater(rows, rows[k].total)| < LIST_LIMIT
  {
    if CanAnswer(rows, q, k) { AnswersAreForemost(rows, q, k); }
    if Foremost(rows, q, k) && |Greater(rows, rows[k].total)| < LIST_LIMIT { ForemostCanAnswer(rows, q, k); }
  }

  ghost predicate SameRecommendation(q: Query, a: Row, b: Row) {
    ExactFeedback(q, a).rec == ExactFeedback(q, b).rec
  }

  /** Among the exact answers, the sample size does not depend on the order of the listing, and the
      recommendation does not either if and only if the foremost rows that can be listed agree. */
  lemma ExactIsDeterminedIff(rows: map<Key, Row>, q: Query)
    ensures forall k, k' :: CanAnswer(rows, q, k) && CanAnswer(rows, q, k') ==>
              k in rows && k' in rows && rows[k].total == rows[k'].total
    ensures (forall k, k' :: CanAnswer(rows, q, k) && CanAnswer(rows, q, k') ==>
               k in rows && k' in rows && SameRecommendation(q, rows[k], rows[k']))
       <==> (forall k, k' :: Foremost(rows, q, k) && Foremost(rows, q, k') ==>
               SameRecommendation(q, rows[k], rows[k']) || |Greater(rows, rows[k].total)| >= LIST_LIMIT)
  {
    forall k ensures CanAnswer(rows, q, k) <==> Foremost(rows, q, k) && |Greater(rows, rows[k].total)| < LIST_LIMIT {
      CanAnswerIff(rows, q, k);
    }
  }

  /** Some order of the table puts the row of `k` first among those at the point. */
  ghost predicate CanComeFirst(rows: map<Key, Row>, q: Query, k: Key) {
    exists all: seq<Record>, i: int :: Lists(all, rows) && FirstExactAt(all, q, i) && all[i].key == k
  }

  ghost predicate SameAnswer(q: Query, a: Row, b: Row) {
    a.total == b.total && SameRecommendation(q, a, b)
  }

  /** If the table were listed in any order at all, the answer would be determined if and only if all
      rows at the point agree on total and recommendation. */
  lemma AnyOrderIsDeterminedIff(rows: map<Key, Row>, q: Query)
    ensures (forall k, k' :: CanComeFirst(rows, q, k) && CanComeFirst(rows, q, k') ==> SameAnswer(q, rows[k], rows[k']))
       <==> (forall k, k' :: k in rows && k' in rows && AtPoint(q)(k) && AtPoint(q)(k') ==>
               SameAnswer(q, rows[k], rows[k']))
  {
    var all := OrderedListing(rows, AtPoint(q));
    forall k ensures CanComeFirst(rows, q, k) <==> k in rows && AtPoint(q)(k) {
      if k in rows && AtPoint(q)(k) {
        var other, p := ListedFirst(rows, all, q, k);
      }
    }
  }

  lemma ListedFirst(rows: map<Key, Row>, all: seq<Record>, q: Query, k: Key) returns (other: seq<Record>, p: int)
    requires Lists(all, rows) && k in rows && AtPoint(q)(k)
    ensures Lists(other, rows) && FirstExactAt(other, q, p) && other[p] == Record(k, rows[k])
  {
    var i := PlaceOf(all, rows, k);
    p := FirstExact(all, q, i);
    SwappedLists(all, p, i, rows);
    other := Swapped(all, p, i);
  }

  lemma {:induction false} FirstExact(all: seq<Record>, q: Query, i: int) returns (p: int)
    requires 0 <= i < |all| && AtPoint(q)(all[i].key)
    ensures p <= i && FirstExactAt(all, q, p)
    decreases i
  {
    if j :| 0 <= j < i && AtPoint(q)(all[j].key) {
      p := FirstExact(all, q, j);
    } else {
      p := i;
    }
  }

  // ---- Whether there is an exact match at all

  /** The rows off the point that can be listed before one of total `total` at the point. */
  ghost function Rivals(rows: map<Key, Row>, q: Query, total: int): set<Key> {
    set k | k in rows && !AtPoint(q)(k) && rows[k].total >= total
  }

  lemma ForemostExists(rows: map<Key, Row>, q: Query, k: Key) returns (top: Key)
    requires k in rows && AtPoint(q)(k)
    ensures Foremost(rows, q, top)
  {
    var all := OrderedListing(rows, AtPoint(q));
    var p := FirstOfPoint(all, rows, q, k);
    FirstIsForemost(all, rows, q, p);
    top := all[p].key;
  }

  lemma FirstOfPoint(all: seq<Record>, rows: map<Key, Row>, q: Query, k: Key) returns (p: int)
    requires Lists(all, rows) && k in rows && AtPoint(q)(k)
    ensures FirstExactAt(all, q, p)
  {
    assert Listed(all, k);
    var i :| 0 <= i < |all| && all[i].key == k;
    p := FirstExact(all, q, i);
  }

  /** What comes before the first exact record is a rival of it. */
  lemma BeforeAreRivals(all: seq<Record>, rows: map<Key, Row>, q: Query, p: nat)
    requires Listing(all, rows) && FirstExactAt(all, q, p)
    ensures p <= |Rivals(rows, q, all[p].row.total)|
  {
    forall k | k in KeysBefore(all, p) ensures k in Rivals(rows, q, all[p].row.total) {
      var j :| 0 <= j < p && all[j].key == k;
    }
    SubsetSize(KeysBefore(all, p), Rivals(rows, q, all[p].row.total));
    CountKeysBefore(all, p);
  }

  /** When the rows at the point come last among equals, all rivals come before the first of them. */
  lemma RivalsAreBefore(all: seq<Record>, rows: map<Key, Row>, q: Query, p: nat)
    requires Listing(all, rows) && TiesLast(all, AtPoint(q)) && FirstExactAt(all, q, p)
    ensures |Rivals(rows, q, all[p].row.total)| <= p
  {
    forall k | k in Rivals(rows, q, all[p].row.total) ensures k in KeysBefore(all, p) {
      assert Listed(all, k);
      var i :| 0 <= i < |all| && all[i].key == k;
    }
    SubsetSize(Rivals(rows, q, all[p].row.total), KeysBefore(all, p));
    CountKeysBefore(all, p);
  }

  lemma ForemostTotal(all: seq<Record>, rows: map<Key, Row>, q: Query, p: int, k: Key)
    requires Listing(all, rows) && FirstExactAt(all, q, p) && Foremost(rows, q, k)
    ensures all[p].row.total == rows[k].total
  {
    FirstIsForemost(all, rows, q, p);
  }

  lemma ListingMatches(all: seq<Record>, rows: map<Key, Row>, q: Query, k: Key)
    requires Listing(all, rows) && Foremost(rows, q, k) && |Rivals(rows, q, rows[k].total)| < LIST_LIMIT
    ensures !NoExact(Limited(all), q)
  {
    var p := FirstOfPoint(all, rows, q, k);
    ForemostTotal(all, rows, q, p, k);
    BeforeAreRivals(all, rows, q, p);
    FirstInLimited(all, q, p);
  }

  lemma ListingMisses(rows: map<Key, Row>, q: Query, k: Key) returns (all: seq<Record>)
    requires Foremost(rows, q, k) && |Rivals(rows, q, rows[k].total)| >= LIST_LIMIT
    ensures Listing(all, rows) && NoExact(Limited(all), q)
  {
    all := OrderedListing(rows, AtPoint(q));
    var p := FirstOfPoint(all, rows, q, k);
    ForemostTotal(all, rows, q, p, k);
    RivalsAreBefore(all, rows, q, p);
    assert forall j :: 0 <= j < |Limited(all)| ==> Limited(all)[j] == all[j];
  }

  /** There is a row at the point, and the limit leaves room for it among the greater totals. */
  ghost predicate CanMatch(rows: map<Key, Row>, q: Query) {
    exists k :: Foremost(rows, q, k) && |Greater(rows, rows[k].total)| < LIST_LIMIT
  }

  /** There is a row at the point, and the limit leaves room for it among all its rivals. */
  ghost predicate MustMatch(rows: map<Key, Row>, q: Query) {
    exists k :: Foremost(rows, q, k) && |Rivals(rows, q, rows[k].total)| < LIST_LIMIT
  }

  /** Some listing matches exactly if and only if fewer rows than the limit have a greater total than
      the foremost; every listing does if and only if it has fewer rivals than the limit.  In between
      the order among equal totals decides whether there is an exact match at all. */
  lemma MatchIff(rows: map<Key, Row>, q: Query)
    ensures (exists all :: Listing(all, rows) && !NoExact(Limited(all), q)) <==> CanMatch(rows, q)
    ensures (forall all :: Listing(all, rows) ==> !NoExact(Limited(all), q)) <==> MustMatch(rows, q)
  {
    if all :| Listing(all, rows) && !NoExact(Limited(all), q) {
      var k, p := MatchIsForemost(all, rows, q);
    }
    if k :| Foremost(rows, q, k) && |Greater(rows, rows[k].total)| < LIST_LIMIT {
      var all, p := ForemostMatches(rows, q, k);
    }
    if MustMatch(rows, q) {
      var k :| Foremost(rows, q, k) && |Rivals(rows, q, rows[k].total)| < LIST_LIMIT;
      forall all | Listing(all, rows) ensures !NoExact(Limited(all), q) { ListingMatches(all, rows, q, k); }
    } else {
      var all := SomeListingMisses(rows, q);
    }
  }

  lemma MatchIsForemost(all: seq<Record>, rows: map<Key, Row>, q: Query) returns (k: Key, p: int)
    requires Listing(all, rows) && !NoExact(Limited(all), q)
    ensures AnswersWith(all, rows, q, k, p) && Foremost(rows, q, k) && |Greater(rows, rows[k].total)| < LIST_LIMIT
  {
    var i :| 0 <= i < |Limited(all)| && AtPoint(q)(Limited(all)[i].key);
    p := FirstExact(Limited(all), q, i);
    k := all[p].key;
    assert AnswersWith(all, rows, q, k, p);
    AnswersAreForemost(rows, q, k);
  }

  lemma ForemostMatches(rows: map<Key, Row>, q: Query, k: Key) returns (all: seq<Record>, p: int)
    requires Foremost(rows, q, k) && |Greater(rows, rows[k].total)| < LIST_LIMIT
    ensures AnswersWith(all, rows, q, k, p) && !NoExact(Limited(all), q)
  {
    ForemostCanAnswer(rows, q, k);
    all, p :| AnswersWith(all, rows, q, k, p);
  }

  lemma SomeListingMisses(rows: map<Key, Row>, q: Query) returns (all: seq<Record>)
    requires !MustMatch(rows, q)
    ensures Listing(all, rows) && NoExact(Limited(all), q)
  {
    if k :| k in rows && AtPoint(q)(k) {
      var top := ForemostExists(rows, q, k);
      all := ListingMisses(rows, q, top);
    } else {
      all := OrderedListing(rows, AtPoint(q));
    }
  }

  // ---- When the whole answer is determined

  /** Some listing leads to this answer. */
  ghost predicate Possible(rows: map<Key, Row>, q: Query, fb: Option<ContextualFeedback>) {
    exists all :: Listing(all, rows) && Answers(Limited(all), q, fb)
  }

  ghost predicate Determined(rows: map<Key, Row>, q: Query) {
    forall fb, fb' :: Possible(rows, q, fb) && Possible(rows, q, fb') ==> fb == fb'
  }

  ghost predicate ForemostAgree(rows: map<Key, Row>, q: Query) {
    forall k, k' :: Foremost(rows, q, k) && Foremost(rows, q, k') ==>
      ExactFeedback(q, rows[k]) == ExactFeedback(q, rows[k'])
  }

  /** The limit falls among the rows of this row's total: some of them are listed, some are not. */
  ghost predicate AtCut(rows: map<Key, Row>, k: Key) {
    k in rows && |Greater(rows, rows[k].total)| < LIST_LIMIT < |Greater(rows, rows[k].total - 1)|
  }

  /** The two rows add the same to the sums of the partial match. */
  ghost predicate SameShare(rows: map<Key, Row>, q: Query, k: Key, k': Key)
    requires k in rows && k' in rows
  {
    if AtGoal(q)(k) then
      AtGoal(q)(k') && rows[k].total == rows[k'].total && rows[k].success == rows[k'].success
      && rows[k].failure == rows[k'].failure
    else
      !AtGoal(q)(k')
  }

  ghost predicate CutAgrees(rows: map<Key, Row>, q: Query) {
    forall k, k' {:trigger AtCut(rows, k), AtCut(rows, k')} ::
      AtCut(rows, k) && AtCut(rows, k') ==> SameShare(rows, q, k, k')
  }

  /** In every reachable store the whole answer, exact, partial or none, is the same for every listing
      if and only if: where an exact match is possible, it is certain and the foremost rows agree; and
      where it is not, the rows among which the limit falls add the same to the partial sums. */
  lemma AnswerIsDeterminedIff(rows: map<Key, Row>, log: seq<Outcome>, q: Query)
    requires Consistent(rows, log)
    ensures Determined(rows, q) <==>
            if CanMatch(rows, q) then MustMatch(rows, q) && ForemostAgree(rows, q) else CutAgrees(rows, q)
  {
    if MustMatch(rows, q) {
      CertainMatchCanMatch(rows, q);
      CertainMatchIff(rows, q);
    } else if CanMatch(rows, q) {
      UncertainMatch(rows, q);
    } else {
      NoMatchIff(rows, log, q);
    }
  }

  lemma CertainMatchCanMatch(rows: map<Key, Row>, q: Query)
    requires MustMatch(rows, q)
    ensures CanMatch(rows, q)
  {
    var all := OrderedListing(rows, AtPoint(q));
    MatchIff(rows, q);
    assert Listing(all, rows) && !NoExact(Limited(all), q);
  }

  lemma ExactIsPossible(rows: map<Key, Row>, q: Query, k: Key)
    requires Foremost(rows, q, k) && |Greater(rows, rows[k].total)| < LIST_LIMIT
    ensures Possible(rows, q, Some(ExactFeedback(q, rows[k])))
  {
    var all, p := ForemostMatches(rows, q, k);
    assert Limited(all)[p].row == rows[k];
    assert Answers(Limited(all), q, Some(ExactFeedback(q, rows[k])));
  }

  lemma PossibleIsForemost(rows: map<Key, Row>, q: Query, fb: Option<ContextualFeedback>) returns (k: Key)
    requires MustMatch(rows, q) && Possible(rows, q, fb)
    ensures Foremost(rows, q, k) && fb == Some(ExactFeedback(q, rows[k]))
  {
    var all: seq<Record> :| Listing(all, rows) && Answers(Limited(all), q, fb);
    var top :| Foremost(rows, q, top) && |Rivals(rows, q, rows[top].total)| < LIST_LIMIT;
    ListingMatches(all, rows, q, top);
    k := ExactIsForemost(all, rows, q, fb);
  }

  lemma ExactIsForemost(all: seq<Record>, rows: map<Key, Row>, q: Query, fb: Option<ContextualFeedback>)
    returns (k: Key)
    requires Listing(all, rows) && Answers(Limited(all), q, fb) && !NoExact(Limited(all), q)
    ensures Foremost(rows, q, k) && fb == Some(ExactFeedback(q, rows[k]))
  {
    var i :| FirstExactAt(Limited(all), q, i) && fb == Some(ExactFeedback(q, Limited(all)[i].row));
    k := all[i].key;
    FirstInLimited(all, q, i);
    FirstIsForemost(all, rows, q, i);
  }

  lemma ForemostSameTotal(rows: map<Key, Row>, q: Query, k: Key, k': Key)
    requires Foremost(rows, q, k) && Foremost(rows, q, k')
    ensures rows[k].total == rows[k'].total
  {
  }

  lemma EveryForemostIsPossible(rows: map<Key, Row>, q: Query, top: Key, k: Key)
    requires Foremost(rows, q, top) && |Greater(rows, rows[top].total)| < LIST_LIMIT && Foremost(rows, q, k)
    ensures Possible(rows, q, Some(ExactFeedback(q, rows[k])))
  {
    ForemostSameTotal(rows, q, k, top);
    ExactIsPossible(rows, q, k);
  }

  lemma CertainMatchIff(rows: map<Key, Row>, q: Query)
    requires MustMatch(rows, q) && CanMatch(rows, q)
    ensures Determined(rows, q) <==> ForemostAgree(rows, q)
  {
    var top :| Foremost(rows, q, top) && |Greater(rows, rows[top].total)| < LIST_LIMIT;
    forall k | Foremost(rows, q, k) ensures Possible(rows, q, Some(ExactFeedback(q, rows[k]))) {
      EveryForemostIsPossible(rows, q, top, k);
    }
    if ForemostAgree(rows, q) {
      AgreementDetermines(rows, q);
    } else {
      var k, k' :| Foremost(rows, q, k) && Foremost(rows, q, k')
                   && ExactFeedback(q, rows[k]) != ExactFeedback(q, rows[k']);
      TwoAnswers(rows, q, Some(ExactFeedback(q, rows[k])), Some(ExactFeedback(q, rows[k'])));
    }
  }

  lemma AgreementDetermines(rows: map<Key, Row>, q: Query)
    requires MustMatch(rows, q) && ForemostAgree(rows, q)
    ensures Determined(rows, q)
  {
    forall fb, fb' | Possible(rows, q, fb) && Possible(rows, q, fb') ensures fb == fb' {
      var k := PossibleIsForemost(rows, q, fb);
      var k' := PossibleIsForemost(rows, q, fb');
    }
  }

  lemma TwoAnswers(
    rows: map<Key, Row>, q: Query, fb: Option<ContextualFeedback>, fb': Option<ContextualFeedback>)
    requires Possible(rows, q, fb) && Possible(rows, q, fb') && fb != fb'
    ensures !Determined(rows, q)
  {
  }

  lemma UncertainMatch(rows: map<Key, Row>, q: Query)
    requires CanMatch(rows, q) && !MustMatch(rows, q)
    ensures !Determined(rows, q)
  {
    var k :| Foremost(rows, q, k) && |Greater(rows, rows[k].total)| < LIST_LIMIT;
    ExactIsPossible(rows, q, k);
    var all := SomeListingMisses(rows, q);
    assert Answers(Limited(all), q, PartialAnswer(Limited(all), q));
    assert Possible(rows, q, PartialAnswer(Limited(all), q));
    assert PartialAnswer(Limited(all), q) != Some(ExactFeedback(q, rows[k]));
  }

  // Without an exact match

  lemma NoMatchIff(rows: map<Key, Row>, log: seq<Outcome>, q: Query)
    requires Consistent(rows, log) && !CanMatch(rows, q)
    ensures Determined(rows, q) <==> CutAgrees(rows, q)
  {
    MatchIff(rows, q);
    assert forall all :: Listing(all, rows) ==> NoExact(Limited(all), q);
    if CutAgrees(rows, q) {
      forall fb, fb' | Possible(rows, q, fb) && Possible(rows, q, fb') ensures fb == fb' {
        var all :| Listing(all, rows) && Answers(Limited(all), q, fb);
        var all' :| Listing(all', rows) && Answers(Limited(all'), q, fb');
        SamePartial(rows, log, all, all', q);
      }
    } else {
      var k, k' :| AtCut(rows, k) && AtCut(rows, k') && !SameShare(rows, q, k, k');
      var all, all' := CutDiffers(rows, log, q, k, k');
      assert Answers(Limited(all), q, PartialAnswer(Limited(all), q));
      assert Answers(Limited(all'), q, PartialAnswer(Limited(all'), q));
      assert Possible(rows, q, PartialAnswer(Limited(all), q)) && Possible(rows, q, PartialAnswer(Limited(all'), q));
    }
  }

  lemma ListingSize(all: seq<Record>, rows: map<Key, Row>)
    requires Lists(all, rows)
    ensures |all| == |rows.Keys|
  {
    CountKeysBefore(all, |all|);
    forall k | k in rows ensures k in KeysBefore(all, |all|) { assert Listed(all, k); }
    assert KeysBefore(all, |all|) == rows.Keys;
  }

  /** The greater totals come first, and nothing else does. */
  lemma Boundary(all: seq<Record>, rows: map<Key, Row>, t: int)
    requires Listing(all, rows)
    ensures var p := |Greater(rows, t)|;
            && p <= |all|
            && (forall j :: 0 <= j < p ==> all[j].row.total > t)
            && (forall j :: p <= j < |all| ==> all[j].row.total <= t)
  {
    if i: nat :| i < |all| && all[i].row.total <= t {
      var p := TieStart(all, t, i);
      GreatersFill(all, rows, t, p);
      GreaterComeBefore(all, rows, p);
      SubsetSize(Greater(rows, t), Greater(rows, all[p].row.total));
    } else {
      GreatersFill(all, rows, t, |all|);
      SubsetSize(Greater(rows, t), rows.Keys);
      ListingSize(all, rows);
    }
  }

  /** Keys that `m` accepts, of rows with a total greater than `t`. */
  ghost function Above(rows: map<Key, Row>, t: int, m: Key -> bool): Key -> bool {
    (k: Key) => m(k) && k in rows && rows[k].total > t
  }

  lemma {:induction false} SumOverExt(records: seq<Record>, m: Key -> bool, m': Key -> bool, f: Row -> int)
    requires forall i :: 0 <= i < |records| ==> m(records[i].key) == m'(records[i].key)
    ensures SumOver(records, m, f) == SumOver(records, m', f)
  {
    if records != [] { SumOverExt(records[..|records| - 1], m, m', f); }
  }

  lemma PrefixSum(all: seq<Record>, rows: map<Key, Row>, t: int, m: Key -> bool, f: Row -> int)
    requires Listing(all, rows)
    ensures |Greater(rows, t)| <= |all|
    ensures SumOver(all[..|Greater(rows, t)|], m, f) == SumOver(all, Above(rows, t, m), f)
  {
    Boundary(all, rows, t);
    AcceptedBefore(all, |Greater(rows, t)|, m, Above(rows, t, m), f);
  }

  lemma AcceptedBefore(all: seq<Record>, p: nat, m: Key -> bool, m': Key -> bool, f: Row -> int)
    requires p <= |all| && forall j :: 0 <= j < |all| ==> m'(all[j].key) == (j < p && m(all[j].key))
    ensures SumOver(all[..p], m, f) == SumOver(all, m', f)
  {
    assert all == all[..p] + all[p..];
    SumOverConcat(all[..p], all[p..], m', f);
    UnacceptedSum(all[p..], m', f);
    SumOverExt(all[..p], m, m', f);
  }

  lemma {:induction false} SumPairwise(a: seq<Record>, b: seq<Record>, q: Query, f: Row -> int)
    requires |a| == |b| && forall i :: 0 <= i < |a| ==> SameAddend(q, f, a[i], b[i])
    ensures SumOver(a, AtGoal(q), f) == SumOver(b, AtGoal(q), f)
  {
    if a != [] {
      SumPairwise(a[..|a| - 1], b[..|b| - 1], q, f);
      assert SameAddend(q, f, a[|a| - 1], b[|b| - 1]);
    }
  }

  /** Two listings reach the same total at the limit. */
  lemma CutNoLower(all: seq<Record>, other: seq<Record>, rows: map<Key, Row>)
    requires Listing(all, rows) && Listing(other, rows) && |all| > LIST_LIMIT && |other| > LIST_LIMIT
    ensures all[LIST_LIMIT - 1].row.total <= other[LIST_LIMIT - 1].row.total
  {
    var t := other[LIST_LIMIT - 1].row.total;
    Boundary(other, rows, t);
    Boundary(all, rows, t);
  }

  /** Where the limit falls: after the greater totals, among those of its own total. */
  lemma CutPlace(all: seq<Record>, rows: map<Key, Row>, t: int)
    requires Listing(all, rows) && |all| > LIST_LIMIT && all[LIST_LIMIT - 1].row.total == t
    ensures |Greater(rows, t)| < LIST_LIMIT <= |Greater(rows, t - 1)|
    ensures forall j :: |Greater(rows, t)| <= j < LIST_LIMIT ==> all[j].row.total == t
  {
    Boundary(all, rows, t);
    Boundary(all, rows, t - 1);
  }

  /** Rows at the cut that the partial match counts at all agree on the counter. */
  ghost predicate CutSharesAgree(rows: map<Key, Row>, q: Query, f: Row -> int) {
    forall k, k' {:trigger AtCut(rows, k), AtCut(rows, k')} ::
      AtCut(rows, k) && AtCut(rows, k') ==> SameAddend(q, f, Record(k, rows[k]), Record(k', rows[k']))
  }

  /** The two records add the same to the sum of the counter. */
  ghost predicate SameAddend(q: Query, f: Row -> int, a: Record, b: Record) {
    AtGoal(q)(a.key) == AtGoal(q)(b.key) && (AtGoal(q)(a.key) ==> f(a.row) == f(b.row))
  }

  ghost predicate SameSums(all: seq<Record>, other: seq<Record>, m: Key -> bool, f: Row -> int) {
    SumOver(all, m, f) == SumOver(other, m, f)
  }

  lemma SameLimitedSum(all: seq<Record>, other: seq<Record>, rows: map<Key, Row>, q: Query, f: Row -> int)
    requires Listing(all, rows) && Listing(other, rows) && |all| > LIST_LIMIT && |other| > LIST_LIMIT
    requires CutSharesAgree(rows, q, f) && forall t :: SameSums(all, other, Above(rows, t, AtGoal(q)), f)
    ensures SameSums(Limited(all), Limited(other), AtGoal(q), f)
  {
    var t, m := all[LIST_LIMIT - 1].row.total, AtGoal(q);
    CutNoLower(all, other, rows);
    CutNoLower(other, all, rows);
    CutPlace(all, rows, t);
    CutPlace(other, rows, t);
    assert SameSums(all, other, Above(rows, t, m), f) && SameSums(all, other, Above(rows, t - 1, m), f);
    if |Greater(rows, t - 1)| == LIST_LIMIT {
      PrefixSum(all, rows, t - 1, m, f);
      PrefixSum(other, rows, t - 1, m, f);
    } else {
      TiesAddTheSame(all, other, rows, q, t, f);
    }
  }

  lemma TiesAddTheSame(
    all: seq<Record>, other: seq<Record>, rows: map<Key, Row>, q: Query, t: int, f: Row -> int)
    requires Listing(all, rows) && Listing(other, rows) && |all| > LIST_LIMIT && |other| > LIST_LIMIT
    requires |Greater(rows, t)| < LIST_LIMIT < |Greater(rows, t - 1)|
    requires forall j :: |Greater(rows, t)| <= j < LIST_LIMIT ==> all[j].row.total == t
    requires forall j :: |Greater(rows, t)| <= j < LIST_LIMIT ==> other[j].row.total == t
    requires CutSharesAgree(rows, q, f) && SameSums(all, other, Above(rows, t, AtGoal(q)), f)
    ensures SameSums(Limited(all), Limited(other), AtGoal(q), f)
  {
    var g := |Greater(rows, t)|;
    TiesSum(all[g..LIST_LIMIT], other[g..LIST_LIMIT], rows, q, t, f);
    LimitedSum(all, rows, t, AtGoal(q), f);
    LimitedSum(other, rows, t, AtGoal(q), f);
  }

  lemma LimitedSum(all: seq<Record>, rows: map<Key, Row>, t: int, m: Key -> bool, f: Row -> int)
    requires Listing(all, rows) && |all| > LIST_LIMIT && |Greater(rows, t)| < LIST_LIMIT
    ensures SumOver(Limited(all), m, f) ==
            SumOver(all, Above(rows, t, m), f) + SumOver(all[|Greater(rows, t)|..LIST_LIMIT], m, f)
  {
    var g := |Greater(rows, t)|;
    PrefixSum(all, rows, t, m, f);
    SplitLimited(all, g, m, f);
  }

  lemma SplitLimited(all: seq<Record>, g: nat, m: Key -> bool, f: Row -> int)
    requires g <= LIST_LIMIT <= |all|
    ensures SumOver(Limited(all), m, f) == SumOver(all[..g], m, f) + SumOver(all[g..LIST_LIMIT], m, f)
  {
    assert Limited(all) == all[..g] + all[g..LIST_LIMIT];
    SumOverConcat(all[..g], all[g..LIST_LIMIT], m, f);
  }

  ghost predicate TiedAt(ties: seq<Record>, rows: map<Key, Row>, t: int) {
    forall i :: 0 <= i < |ties| ==> ties[i].key in rows && rows[ties[i].key] == ties[i].row && ties[i].row.total == t
  }

  lemma TiesSum(ties: seq<Record>, ties': seq<Record>, rows: map<Key, Row>, q: Query, t: int, f: Row -> int)
    requires |ties| == |ties'| && TiedAt(ties, rows, t) && TiedAt(ties', rows, t)
    requires |Greater(rows, t)| < LIST_LIMIT < |Greater(rows, t - 1)| && CutSharesAgree(rows, q, f)
    ensures SameSums(ties, ties', AtGoal(q), f)
  {
    forall i | 0 <= i < |ties| ensures SameAddend(q, f, ties[i], ties'[i]) {
      TiedPair(ties[i], ties'[i], rows, q, t, f);
    }
    SumPairwise(ties, ties', q, f);
  }

  lemma TiedPair(a: Record, b: Record, rows: map<Key, Row>, q: Query, t: int, f: Row -> int)
    requires a.key in rows && rows[a.key] == a.row && b.key in rows && rows[b.key] == b.row
    requires |Greater(rows, t)| < LIST_LIMIT < |Greater(rows, t - 1)| && a.row.total == b.row.total == t
    requires CutSharesAgree(rows, q, f)
    ensures SameAddend(q, f, a, b)
  {
    assert AtCut(rows, a.key) && AtCut(rows, b.key);
  }

  lemma SameSumsOfLog(rows: map<Key, Row>, log: seq<Outcome>, all: seq<Record>, other: seq<Record>, m: Key -> bool)
    requires Consistent(rows, log) && Listing(all, rows) && Listing(other, rows)
    ensures SameSums(all, other, m, TotalOf()) && SameSums(all, other, m, SuccessOf())
            && SameSums(all, other, m, FailureOf())
  {
    SumsCountTheLog(rows, log, all, m);
    SumsCountTheLog(rows, log, other, m);
  }

  lemma SamePartial(rows: map<Key, Row>, log: seq<Outcome>, all: seq<Record>, other: seq<Record>, q: Query)
    requires Consistent(rows, log) && Listing(all, rows) && Listing(other, rows) && CutAgrees(rows, q)
    ensures PartialAnswer(Limited(all), q) == PartialAnswer(Limited(other), q)
  {
    ListingSize(all, rows);
    ListingSize(other, rows);
    if |all| <= LIST_LIMIT {
      SameSumsOfLog(rows, log, all, other, AtGoal(q));
    } else {
      forall t { SameSumsOfLog(rows, log, all, other, Above(rows, t, AtGoal(q))); }
      SharesByCounter(rows, q, TotalOf());
      SharesByCounter(rows, q, SuccessOf());
      SharesByCounter(rows, q, FailureOf());
      SameLimitedSum(all, other, rows, q, TotalOf());
      SameLimitedSum(all, other, rows, q, SuccessOf());
      SameLimitedSum(all, other, rows, q, FailureOf());
    }
  }

  lemma SharesByCounter(rows: map<Key, Row>, q: Query, f: Row -> int)
    requires CutAgrees(rows, q)
    requires forall a: Row, b: Row ::
               a.total == b.total && a.success == b.success && a.failure == b.failure ==> f(a) == f(b)
    ensures CutSharesAgree(rows, q, f)
  {
    forall k, k' | AtCut(rows, k) && AtCut(rows, k')
      ensures SameAddend(q, f, Record(k, rows[k]), Record(k', rows[k']))
    {
      assert SameShare(rows, q, k, k');
    }
  }

  /** Any row can take a place of its own total, and another row keep its place. */
  lemma PlaceAt(all: seq<Record>, rows: map<Key, Row>, p: nat, k: Key, kept: nat) returns (other: seq<Record>)
    requires Listing(all, rows) && p < |all| && k in rows && rows[k].total == all[p].row.total
    requires kept < |all|
    ensures Listing(other, rows) && |other| == |all| && other[p] == Record(k, rows[k])
    ensures kept != p && all[kept].key != k ==> other[kept] == all[kept]
  {
    var i := PlaceOf(all, rows, k);
    SwappedListing(all, p, i, rows);
    other := Swapped(all, p, i);
  }

  lemma PlaceOf(all: seq<Record>, rows: map<Key, Row>, k: Key) returns (i: nat)
    requires Lists(all, rows) && k in rows
    ensures i < |all| && all[i] == Record(k, rows[k])
  {
    assert Listed(all, k);
    i :| 0 <= i < |all| && all[i].key == k;
  }

  lemma SwappedListing(all: seq<Record>, p: int, i: int, rows: map<Key, Row>)
    requires Listing(all, rows) && 0 <= p < |all| && 0 <= i < |all| && all[p].row.total == all[i].row.total
    ensures Listing(Swapped(all, p, i), rows)
  {
    SwappedLists(all, p, i, rows);
    SwappedByTotal(all, p, i);
  }

  lemma CutSameTotal(rows: map<Key, Row>, k: Key, k': Key)
    requires AtCut(rows, k) && AtCut(rows, k')
    ensures rows[k].total <= rows[k'].total
  {
    if rows[k].total > rows[k'].total {
      SubsetSize(Greater(rows, rows[k].total - 1), Greater(rows, rows[k'].total));
    }
  }

  lemma AroundTheCut(all: seq<Record>, rows: map<Key, Row>, t: int)
    requires Listing(all, rows) && |Greater(rows, t)| < LIST_LIMIT < |Greater(rows, t - 1)|
    ensures |all| > LIST_LIMIT && all[LIST_LIMIT - 1].row.total == all[LIST_LIMIT].row.total == t
  {
    Boundary(all, rows, t);
    Boundary(all, rows, t - 1);
  }

  /** Two rows at the cut can be the last that is listed and the first that is not. */
  lemma AcrossTheCut(rows: map<Key, Row>, q: Query, k: Key, k': Key) returns (all: seq<Record>)
    requires AtCut(rows, k) && AtCut(rows, k') && k != k'
    ensures Listing(all, rows) && |all| > LIST_LIMIT
    ensures all[LIST_LIMIT - 1] == Record(k, rows[k]) && all[LIST_LIMIT] == Record(k', rows[k'])
    ensures rows[k].total == rows[k'].total
  {
    CutSameTotal(rows, k, k');
    CutSameTotal(rows, k', k);
    var base := OrderedListing(rows, AtPoint(q));
    AroundTheCut(base, rows, rows[k].total);
    var one := PlaceAt(base, rows, LIST_LIMIT - 1, k, 0);
    AroundTheCut(one, rows, rows[k].total);
    all := PlaceAt(one, rows, LIST_LIMIT, k', LIST_LIMIT - 1);
  }

  /** Equal feedback from non-negative totals comes from equal counters. */
  lemma PartialInjective(q: Query, t: int, s: int, f: int, t': int, s': int, f': int)
    requires 0 <= t && 0 <= t' && PartialFeedback(q, t, s, f) == PartialFeedback(q, t', s', f')
    ensures t == t' && (t > 0 ==> s == s' && f == f')
  {
    if t > 0 {
      RateInjective(s, s', t);
      RateInjective(f, f', t);
    }
  }

  lemma RateInjective(a: int, b: int, t: int)
    requires t > 0
    ensures Rate(a, t) == Rate(b, t) ==> a == b
  {
    assert Rate(a, t) * t as real == a as real;
    assert Rate(b, t) * t as real == b as real;
  }

  lemma SumOverSnoc(front: seq<Record>, r: Record, m: Key -> bool, f: Row -> int)
    ensures SumOver(front + [r], m, f) == SumOver(front, m, f) + (if m(r.key) then f(r.row) else 0)
  {
    assert (front + [r])[..|front|] == front;
  }

  /** Rows with different shares behind the same records give different answers. */
  lemma SharesShow(front: seq<Record>, rows: map<Key, Row>, q: Query, k: Key, k': Key)
    requires k in rows && k' in rows && rows[k].total == rows[k'].total > 0 && !SameShare(rows, q, k, k')
    requires SumOver(front, AtGoal(q), TotalOf()) >= 0
    ensures PartialAnswer(front + [Record(k, rows[k])], q) != PartialAnswer(front + [Record(k', rows[k'])], q)
  {
    var m, a, b := AtGoal(q), Record(k, rows[k]), Record(k', rows[k']);
    SumOverSnoc(front, a, m, TotalOf());
    SumOverSnoc(front, a, m, SuccessOf());
    SumOverSnoc(front, a, m, FailureOf());
    SumOverSnoc(front, b, m, TotalOf());
    SumOverSnoc(front, b, m, SuccessOf());
    SumOverSnoc(front, b, m, FailureOf());
    if PartialAnswer(front + [a], q) == PartialAnswer(front + [b], q) {
      PartialInjective(q, SumOver(front + [a], m, TotalOf()), SumOver(front + [a], m, SuccessOf()),
                       SumOver(front + [a], m, FailureOf()), SumOver(front + [b], m, TotalOf()),
                       SumOver(front + [b], m, SuccessOf()), SumOver(front + [b], m, FailureOf()));
    }
  }

  lemma CutDiffers(rows: map<Key, Row>, log: seq<Outcome>, q: Query, k: Key, k': Key)
    returns (all: seq<Record>, other: seq<Record>)
    requires Consistent(rows, log) && AtCut(rows, k) && AtCut(rows, k') && !SameShare(rows, q, k, k')
    ensures Listing(all, rows) && Listing(other, rows)
    ensures PartialAnswer(Limited(all), q) != PartialAnswer(Limited(other), q)
  {
    all := AcrossTheCut(rows, q, k, k');
    SwappedListing(all, LIST_LIMIT - 1, LIST_LIMIT, rows);
    other := Swapped(all, LIST_LIMIT - 1, LIST_LIMIT);
    LimitedSwap(all);
    PositiveFront(rows, log, all, q);
    SharesShow(all[..LIST_LIMIT - 1], rows, q, k, k');
  }

  lemma LimitedSwap(all: seq<Record>)
    requires |all| > LIST_LIMIT
    ensures Limited(all) == all[..LIST_LIMIT - 1] + [all[LIST_LIMIT - 1]]
    ensures Limited(Swapped(all, LIST_LIMIT - 1, LIST_LIMIT)) == all[..LIST_LIMIT - 1] + [all[LIST_LIMIT]]
  {
  }

  lemma PositiveFront(rows: map<Key, Row>, log: seq<Outcome>, all: seq<Record>, q: Query)
    requires Consistent(rows, log) && Lists(all, rows) && |all| > LIST_LIMIT
    ensures SumOver(all[..LIST_LIMIT - 1], AtGoal(q), TotalOf()) >= 0 && all[LIST_LIMIT - 1].row.total > 0
  {
    PositiveTotals(rows, log, all);
    PositiveSum(all[..LIST_LIMIT - 1], AtGoal(q));
  }

  // ---- An answer that depends on the order

  function Repeat(o: Outcome, n: nat): seq<Outcome> {
    seq(n, i => o)
  }

  lemma {:induction false} CountRepeat(o: Outcome, n: nat, p: Outcome -> bool)
    ensures CountLog(Repeat(o, n), p) == if p(o) then n else 0
  {
    if n > 0 {
      assert Repeat(o, n)[..n - 1] == Repeat(o, n - 1);
      CountRepeat(o, n - 1, p);
    }
  }

  lemma {:induction false} CountConcat(a: seq<Outcome>, b: seq<Outcome>, p: Outcome -> bool)
    ensures CountLog(a + b, p) == CountLog(a, p) + CountLog(b, p)
  {
    if b == [] {
      assert a + b == a;
    } else {
      assert (a + b)[..|a + b| - 1] == a + b[..|b| - 1];
      CountConcat(a, b[..|b| - 1], p);
    }
  }

  lemma CountTwo(o: Outcome, o': Outcome, n: nat, p: Outcome -> bool)
    ensures CountLog(Repeat(o, n) + Repeat(o', n), p) == (if p(o) then n else 0) + (if p(o') then n else 0)
  {
    CountConcat(Repeat(o, n), Repeat(o', n), p);
    CountRepeat(o, n, p);
    CountRepeat(o', n, p);
  }

  lemma CountTwoKeys(o: Outcome, o': Outcome, k: Key)
    ensures var log := Repeat(o, 5) + Repeat(o', 5);
            && CountLog(log, Of(k, Any())) == (if o.key == k then 5 else 0) + (if o'.key == k then 5 else 0)
            && CountLog(log, Of(k, Successes())) ==
               5 * ((if o.key == k then SuccessInc(o.status) else 0)
                    + (if o'.key == k then SuccessInc(o'.status) else 0))
            && CountLog(log, Of(k, Failures())) ==
               5 * ((if o.key == k then FailureInc(o.status) else 0)
                    + (if o'.key == k then FailureInc(o'.status) else 0))
            && CountLog(log, Of(k, Neutrals())) ==
               5 * ((if o.key == k then NeutralInc(o.status) else 0)
                    + (if o'.key == k then NeutralInc(o'.status) else 0))
  {
    CountTwo(o, o', 5, Of(k, Any()));
    CountTwo(o, o', 5, Of(k, Successes()));
    CountTwo(o, o', 5, Of(k, Failures()));
    CountTwo(o, o', 5, Of(k, Neutrals()));
  }

  /** Two job types at one point, five runs each, all successes of the one and all failures of the
      other: one listing of the table answers "prefer", another "avoid". */
  lemma ListingDecides(good: Key, bad: Key, q: Query)
    returns (rows: map<Key, Row>, log: seq<Outcome>)
    requires AtPoint(q)(good) && AtPoint(q)(bad) && good != bad
    ensures Consistent(rows, log) && CanAnswer(rows, q, good) && CanAnswer(rows, q, bad)
    ensures ExactFeedback(q, rows[good]).rec == PreferAction && ExactFeedback(q, rows[bad]).rec == AvoidAction
  {
    var o, o' := Outcome(good, "success"), Outcome(bad, "failure");
    var g, b := Row(5, 5, 0, 0, 1.0, 0.0, 1), Row(5, 0, 5, 0, 0.0, 1.0, 1);
    rows := map[good := g, bad := b];
    log := Repeat(o, 5) + Repeat(o', 5);
    TwoRowsConsistent(o, o', g, b);
    TwoRows(good, bad, rows, q);
    TwoRows(bad, good, rows, q);
  }

  lemma TwoRowsConsistent(o: Outcome, o': Outcome, g: Row, b: Row)
    requires o.key != o'.key && o.status == "success" && o'.status == "failure"
    requires g == Row(5, 5, 0, 0, 1.0, 0.0, g.lastUpdated) && b == Row(5, 0, 5, 0, 0.0, 1.0, b.lastUpdated)
    ensures Consistent(map[o.key := g, o'.key := b], Repeat(o, 5) + Repeat(o', 5))
  {
    forall k { CountTwoKeys(o, o', k); }
    CountTwoKeys(o, o', o.key);
    CountTwoKeys(o, o', o'.key);
  }

  lemma TwoRows(k: Key, k': Key, rows: map<Key, Row>, q: Query)
    requires k != k' && rows.Keys == {k, k'} && rows[k].total == rows[k'].total && AtPoint(q)(k)
    ensures CanAnswer(rows, q, k)
  {
    var all := [Record(k, rows[k]), Record(k', rows[k'])];
    assert all[0].key == k && all[1].key == k';
    assert AnswersWith(all, rows, q, k, 0);
  }

  // ---- A match that depends on the order

  /** `n` rows of one run each, none of them at the action asked for. */
  lemma {:induction false} OtherActions(q: Query, n: nat) returns (rows: map<Key, Row>, log: seq<Outcome>)
    ensures Consistent(rows, log) && |rows.Keys| == n && Elsewhere(rows, q, n)
  {
    rows, log := map[], [];
    if n > 0 {
      var fewer, log0 := OtherActions(q, n - 1);
      var k := Key(q.action + "x", q.goal, seq(n - 1, i => 'x'), q.failure, q.backlog);
      assert k !in fewer;
      rows, log := WithNewRow(fewer, log0, k);
      ElsewhereGrows(fewer, rows, q, n - 1, k);
    }
  }

  ghost predicate Elsewhere(rows: map<Key, Row>, q: Query, n: nat) {
    forall k :: k in rows ==> rows[k].total == 1 && k.action != q.action && |k.job| < n
  }

  lemma ElsewhereGrows(rows: map<Key, Row>, rows': map<Key, Row>, q: Query, n: nat, k: Key)
    requires Elsewhere(rows, q, n) && k.action != q.action && |k.job| == n && Adds(rows, rows', k)
    ensures Elsewhere(rows', q, n + 1)
  {
  }

  lemma LonelyJoins(rows: map<Key, Row>, rows': map<Key, Row>, q: Query, n: nat, k: Key)
    requires Elsewhere(rows, q, n) && AtPoint(q)(k) && Adds(rows, rows', k)
    ensures Lonely(rows', q, k)
  {
  }

  /** One more row, of one run. */
  ghost predicate Adds(rows: map<Key, Row>, rows': map<Key, Row>, k: Key) {
    && rows'.Keys == rows.Keys + {k} && rows'[k].total == 1
    && forall k' :: k' in rows ==> rows'[k'] == rows[k']
  }

  lemma WithNewRow(rows: map<Key, Row>, log: seq<Outcome>, k: Key) returns (rows': map<Key, Row>, log': seq<Outcome>)
    requires Consistent(rows, log) && k !in rows
    ensures Consistent(rows', log') && |rows'.Keys| == |rows.Keys| + 1 && Adds(rows, rows', k)
  {
    var row;
    row, log' := NewRow(rows, log, k);
    rows' := rows[k := row];
    assert rows'.Keys == rows.Keys + {k};
  }

  lemma NewRow(rows: map<Key, Row>, log: seq<Outcome>, k: Key) returns (row: Row, log': seq<Outcome>)
    requires Consistent(rows, log) && k !in rows
    ensures Consistent(rows[k := row], log') && row.total == 1
  {
    var o := Outcome(k, "success");
    UpsertKeeps(rows, log, o, 1);
    row, log' := Upserted(None, o, 1), log + [o];
  }

  /** `k` is the only row of its action, and all rows have the same total. */
  ghost predicate Lonely(rows: map<Key, Row>, q: Query, k: Key) {
    && k in rows && AtPoint(q)(k)
    && (forall k' :: k' in rows && k' != k ==> k'.action != q.action)
    && (forall k' :: k' in rows ==> rows[k'].total == rows[k].total)
  }

  lemma LonelyIsForemost(rows: map<Key, Row>, q: Query, k: Key, k': Key)
    requires Lonely(rows, q, k)
    ensures Foremost(rows, q, k') <==> k' == k
  {
  }

  lemma LonelyRivals(rows: map<Key, Row>, q: Query, k: Key)
    requires Lonely(rows, q, k)
    ensures |Greater(rows, rows[k].total)| == 0 && |Rivals(rows, q, rows[k].total)| == |rows.Keys| - 1
  {
    assert Greater(rows, rows[k].total) == {};
    assert Rivals(rows, q, rows[k].total) == rows.Keys - {k};
  }

  lemma LonelyCanMatch(rows: map<Key, Row>, q: Query, k: Key)
    requires Lonely(rows, q, k)
    ensures CanMatch(rows, q) && ForemostAgree(rows, q) && Possible(rows, q, Some(ExactFeedback(q, rows[k])))
  {
    forall k' ensures Foremost(rows, q, k') <==> k' == k { LonelyIsForemost(rows, q, k, k'); }
    LonelyRivals(rows, q, k);
    ExactIsPossible(rows, q, k);
  }

  lemma LonelyCanMiss(rows: map<Key, Row>, q: Query, k: Key)
    requires Lonely(rows, q, k) && |rows.Keys| > LIST_LIMIT
    ensures !MustMatch(rows, q) && Possible(rows, q, None)
  {
    forall k' ensures Foremost(rows, q, k') <==> k' == k { LonelyIsForemost(rows, q, k, k'); }
    LonelyRivals(rows, q, k);
    var all := SomeListingMisses(rows, q);
    NothingAtGoal(Limited(all), rows, q, k);
    assert Answers(Limited(all), q, None);
  }

  lemma NothingAtGoal(records: seq<Record>, rows: map<Key, Row>, q: Query, k: Key)
    requires forall i :: 0 <= i < |records| ==> records[i].key in rows
    requires NoExact(records, q) && Lonely(rows, q, k)
    ensures PartialAnswer(records, q) == None
  {
    UnacceptedSum(records, AtGoal(q), TotalOf());
  }

  /** A single row at the point, tied with as many others as the listing has room for: one listing
      answers with it, another has no answer at all. */
  lemma TieAtTheCut(q: Query) returns (rows: map<Key, Row>, log: seq<Outcome>, k: Key)
    ensures Consistent(rows, log) && Lonely(rows, q, k) && ForemostAgree(rows, q) && |rows.Keys| == 10001
    ensures CanMatch(rows, q) && !MustMatch(rows, q)
    ensures Possible(rows, q, Some(ExactFeedback(q, rows[k]))) && Possible(rows, q, None)
  {
    rows, log, k := LonelyTable(q, LIST_LIMIT);
    LonelyCanMatch(rows, q, k);
    LonelyCanMiss(rows, q, k);
  }

  lemma LonelyTable(q: Query, n: nat) returns (rows: map<Key, Row>, log: seq<Outcome>, k: Key)
    ensures Consistent(rows, log) && Lonely(rows, q, k) && |rows.Keys| == n + 1
  {
    var others, log0 := OtherActions(q, n);
    k := Key(q.action, q.goal, "", q.failure, q.backlog);
    rows, log := WithNewRow(others, log0, k);
    LonelyJoins(others, rows, q, n, k);
  }
}
