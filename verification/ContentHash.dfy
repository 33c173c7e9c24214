/** The record a task's content hash is taken of, and when two tasks share it. */
module ContentHash {
  import opened Options

  const NANOS_PER_SECOND: int := 1_000_000_000

  /** `dueDate` is the instant in nanoseconds, so two dates in different zones may be equal. */
  datatype Task = Task(
    externalId: string, title: string, description: string, status: string, priority: string,
    dueDate: Option<int>, labels: seq<string>, metadata: map<string, string>)

  /** The due date is written in UTC to the second; an absent one is the empty text. */
  datatype Hashable = Hashable(
    externalId: string, title: string, description: string, status: string, priority: string,
    dueSecond: Option<int>, labels: seq<string>, metadata: map<string, string>)

  // ---- The order of strings

  predicate AtMost(a: string, b: string) {
    if a == "" then true
    else if b == "" then false
    else if a[0] == b[0] then AtMost(a[1..], b[1..])
    else a[0] < b[0]
  }

  lemma {:induction false} AtMostTotal(a: string, b: string)
    ensures AtMost(a, b) || AtMost(b, a)
  {
    if a != "" && b != "" && a[0] == b[0] { AtMostTotal(a[1..], b[1..]); }
  }

  lemma {:induction false} AtMostAntisymmetric(a: string, b: string)
    requires AtMost(a, b) && AtMost(b, a)
    ensures a == b
  {
    if a != "" && b != "" && a[0] == b[0] {
      AtMostAntisymmetric(a[1..], b[1..]);
      assert a == [a[0]] + a[1..] && b == [b[0]] + b[1..];
    }
  }

  lemma {:induction false} AtMostTransitive(a: string, b: string, c: string)
    requires AtMost(a, b) && AtMost(b, c)
    ensures AtMost(a, c)
  {
    if a != "" && b != "" && c != "" && a[0] == b[0] == c[0] { AtMostTransitive(a[1..], b[1..], c[1..]); }
  }

  // ---- Sorted arrangements are unique

  ghost predicate Sorted(s: seq<string>) {
    forall i, j :: 0 <= i < j < |s| ==> AtMost(s[i], s[j])
  }

  lemma {:induction false} SortedUnique(a: seq<string>, b: seq<string>)
    requires Sorted(a) && Sorted(b) && multiset(a) == multiset(b)
    ensures a == b
  {
    if a == [] {
      assert |multiset(b)| == 0;
    } else {
      assert |multiset(a)| == |a| && |multiset(b)| == |b|;
      HeadIsLeast(a, b);
      HeadIsLeast(b, a);
      AtMostAntisymmetric(a[0], b[0]);
      TailMultiset(a);
      TailMultiset(b);
      SortedUnique(a[1..], b[1..]);
    }
  }

  lemma TailMultiset(s: seq<string>)
    requires s != []
    ensures s == [s[0]] + s[1..] && multiset(s[1..]) == multiset(s) - multiset{s[0]}
  {
    assert s == [s[0]] + s[1..];
  }

  lemma HeadIsLeast(a: seq<string>, b: seq<string>)
    requires Sorted(a) && a != [] && b != [] && multiset(a) == multiset(b)
    ensures AtMost(a[0], b[0])
  {
    assert b[0] in multiset(b);
    var i :| 0 <= i < |a| && a[i] == b[0];
    if i == 0 { AtMostTotal(a[0], a[0]); }
  }

  // ---- The canonical form

  function Insert(x: string, s: seq<string>): seq<string> {
    if s == [] || AtMost(x, s[0]) then [x] + s else [s[0]] + Insert(x, s[1..])
  }

  function SortStrings(s: seq<string>): seq<string> {
    if s == [] then [] else Insert(s[0], SortStrings(s[1..]))
  }

  lemma {:induction false} InsertSorts(x: string, s: seq<string>)
    requires Sorted(s)
    ensures Sorted(Insert(x, s)) && multiset(Insert(x, s)) == multiset{x} + multiset(s)
  {
    if s == [] {
    } else if AtMost(x, s[0]) {
      forall j | 0 <= j < |s| ensures AtMost(x, s[j]) {
        if j > 0 { AtMostTransitive(x, s[0], s[j]); }
      }
    } else {
      AtMostTotal(x, s[0]);
      InsertSorts(x, s[1..]);
      assert s == [s[0]] + s[1..];
      var rest := Insert(x, s[1..]);
      forall j | 0 <= j < |rest| ensures AtMost(s[0], rest[j]) {
        assert rest[j] in multiset(rest);
        if rest[j] != x { assert rest[j] in s[1..]; }
      }
    }
  }

  lemma {:induction false} SortStringsSorts(s: seq<string>)
    ensures Sorted(SortStrings(s)) && multiset(SortStrings(s)) == multiset(s)
  {
    if s != [] {
      SortStringsSorts(s[1..]);
      InsertSorts(s[0], SortStrings(s[1..]));
      assert s == [s[0]] + s[1..];
    }
  }

  function Canonical(t: Task): Hashable {
    Hashable(t.externalId, t.title, t.description, t.status, t.priority,
             match t.dueDate case None => None case Some(d) => Some(d / NANOS_PER_SECOND),
             SortStrings(t.labels), t.metadata)
  }

  /** The record holds the task's own fields, the labels in order and the whole second of the due date. */
  lemma CanonicalKeeps(t: Task)
    ensures var r := Canonical(t);
            && r.externalId == t.externalId && r.title == t.title && r.description == t.description
            && r.status == t.status && r.priority == t.priority && r.metadata == t.metadata
            && Sorted(r.labels) && multiset(r.labels) == multiset(t.labels)
            && (r.dueSecond.Some? <==> t.dueDate.Some?)
            && (r.dueSecond.Some? ==>
                  r.dueSecond.value * 1_000_000_000 <= t.dueDate.value < (r.dueSecond.value + 1) * 1_000_000_000)
  {
    SortStringsSorts(t.labels);
  }

  /** Agreement on every field, labels counted but not ordered, due dates to the second. */
  ghost predicate SameContent(a: Task, b: Task) {
    && a.externalId == b.externalId && a.title == b.title && a.description == b.description
    && a.status == b.status && a.priority == b.priority && a.metadata == b.metadata
    && multiset(a.labels) == multiset(b.labels)
    && a.dueDate.Some? == b.dueDate.Some?
    && (a.dueDate.Some? ==> a.dueDate.value / 1_000_000_000 == b.dueDate.value / 1_000_000_000)
  }

  /** Two tasks are hashed from the same record exactly when they have the same content. */
  lemma SameRecordIff(a: Task, b: Task)
    ensures Canonical(a) == Canonical(b) <==> SameContent(a, b)
  {
    SortStringsSorts(a.labels);
    SortStringsSorts(b.labels);
    if SameContent(a, b) { SortedUnique(SortStrings(a.labels), SortStrings(b.labels)); }
  }
}
