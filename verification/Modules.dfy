/** The modules a school can buy, what each cannot work without, and the sets a
    school's row may store. */
module Modules {
  import opened Buckets
  import opened Database
  import opened Entitlements

  datatype Module =
    | Chatbot | Notes | Messages | Events | Appointments | Courses | CourseNotes
    | Classes | Sessions | Exams | Marks | Meals | Payments | Work | Pomodoro
    | Questions | BankQuestions | Attendance | Subjects | Homework | Boards

  const ALL: seq<Module> := [
    Chatbot, Notes, Messages, Events, Appointments, Courses, CourseNotes,
    Classes, Sessions, Exams, Marks, Meals, Payments, Work, Pomodoro,
    Questions, BankQuestions, Attendance, Subjects, Homework, Boards
  ]

  function AsStr(m: Module): string {
    match m
    case Chatbot => "chatbot"
    case Notes => "notes"
    case Messages => "messages"
    case Events => "events"
    case Appointments => "appointments"
    case Courses => "courses"
    case CourseNotes => "course_notes"
    case Classes => "classes"
    case Sessions => "sessions"
    case Exams => "exams"
    case Marks => "marks"
    case Meals => "meals"
    case Payments => "payments"
    case Work => "work"
    case Pomodoro => "pomodoro"
    case Questions => "questions"
    case BankQuestions => "bank_questions"
    case Attendance => "attendance"
    case Subjects => "subjects"
    case Homework => "homework"
    case Boards => "boards"
  }

  function Requires(m: Module): seq<Module> {
    match m
    case Subjects => [Courses]
    case CourseNotes => [Courses]
    case Sessions => [Courses]
    case Exams => [Courses, Subjects]
    case Homework => [Courses, Subjects]
    case Classes => [Courses]
    case Marks => [Exams]
    case Attendance => [Events, Sessions]
    case _ => []
  }

  function RequiredSet(m: Module): set<Module> {
    set n | n in Requires(m)
  }

  /** The hard references between modules, pair by pair. */
  const EDGES: set<(Module, Module)> := {
    (Subjects, Courses), (CourseNotes, Courses), (Sessions, Courses), (Classes, Courses),
    (Exams, Courses), (Exams, Subjects), (Homework, Courses), (Homework, Subjects),
    (Marks, Exams), (Attendance, Events), (Attendance, Sessions)
  }

  lemma RequiresAreTheEdges(m: Module, n: Module)
    ensures n in Requires(m) <==> (m, n) in EDGES
  {
  }

  /** How deep a module's requirements go. */
  function Depth(m: Module): nat {
    match m
    case Subjects | CourseNotes | Sessions | Classes => 1
    case Exams | Homework | Attendance => 2
    case Marks => 3
    case _ => 0
  }

  lemma NoCycle()
    ensures Acyclic(RequiredSet, Depth)
  {
    forall m, n | n in RequiredSet(m)
      ensures Depth(n) < Depth(m)
    {
      assert n in Requires(m);
    }
  }

  /** A module's place in the declaration order. */
  function Place(m: Module): (i: nat)
    ensures i < |ALL| && ALL[i] == m
  {
    match m
    case Chatbot => 0
    case Notes => 1
    case Messages => 2
    case Events => 3
    case Appointments => 4
    case Courses => 5
    case CourseNotes => 6
    case Classes => 7
    case Sessions => 8
    case Exams => 9
    case Marks => 10
    case Meals => 11
    case Payments => 12
    case Work => 13
    case Pomodoro => 14
    case Questions => 15
    case BankQuestions => 16
    case Attendance => 17
    case Subjects => 18
    case Homework => 19
    case Boards => 20
  }

  lemma PlaceOf(i: nat)
    requires i < |ALL|
    ensures Place(ALL[i]) == i
  {
  }

  ghost predicate Distinct<T>(s: seq<T>) {
    forall i, j :: 0 <= i < j < |s| ==> s[i] != s[j]
  }

  lemma AllDistinct()
    ensures Distinct(ALL) && forall m :: m in ALL
  {
    forall i, j | 0 <= i < j < |ALL|
      ensures ALL[i] != ALL[j]
    {
      PlaceOf(i);
      PlaceOf(j);
    }
    forall m
      ensures m in ALL
    {
      assert ALL[Place(m)] == m;
    }
  }

  // ------------------------------------------------------------------
  // Names
  // ------------------------------------------------------------------

  /** The length and the first two characters tell all the names apart. */
  function Fingerprint(s: string): (nat, char, char)
    requires |s| >= 2
  {
    (|s|, s[0], s[1])
  }

  function Read(f: (nat, char, char)): Module {
    match f.0
    case 4 => Work
    case 5 => if f.1 == 'n' then Notes else if f.1 == 'e' then Exams else if f.2 == 'a' then Marks else Meals
    case 6 => if f.1 == 'e' then Events else Boards
    case 7 => if f.2 == 'h' then Chatbot else if f.2 == 'o' then Courses else Classes
    case 8 =>
      if f.1 == 'm' then Messages else if f.1 == 'h' then Homework
      else if f.1 == 's' then (if f.2 == 'e' then Sessions else Subjects)
      else if f.2 == 'a' then Payments else Pomodoro
    case 9 => Questions
    case 10 => Attendance
    case 12 => if f.1 == 'a' then Appointments else CourseNotes
    case _ => BankQuestions
  }

  lemma ReadsBack(m: Module)
    ensures |AsStr(m)| >= 2 && Read(Fingerprint(AsStr(m))) == m
  {
  }

  lemma NamesDistinct(m: Module, n: Module)
    requires AsStr(m) == AsStr(n)
    ensures m == n
  {
    ReadsBack(m);
    ReadsBack(n);
  }

  ghost predicate Known(name: string) {
    exists m :: AsStr(m) == name
  }

  /** The first module of that name. */
  method TryFromStr(value: string) returns (found: Option<Module>)
    ensures found.Some? ==> AsStr(found.value) == value
    ensures found.None? ==> !Known(value)
  {
    for i := 0 to |ALL|
      invariant forall j :: 0 <= j < i ==> AsStr(ALL[j]) != value
    {
      if AsStr(ALL[i]) == value {
        return Some(ALL[i]);
      }
    }
    forall m
      ensures AsStr(m) != value
    {
      assert ALL[Place(m)] == m;
    }
    return None;
  }

  // ------------------------------------------------------------------
  // The order of names
  // ------------------------------------------------------------------

  predicate Before(a: string, b: string) {
    b != "" && (a == "" || a[0] < b[0] || (a[0] == b[0] && Before(a[1..], b[1..])))
  }

  /** The order is the lexicographic one: at the first difference the smaller
      character comes first, and a name comes before its extensions. */
  lemma {:induction false} BeforeIsLexicographic(a: string, b: string)
    ensures Before(a, b) <==>
            exists n: nat :: n <= |a| && n < |b| && a[..n] == b[..n] && (n == |a| || a[n] < b[n])
  {
    if a != "" && b != "" && a[0] == b[0] {
      BeforeIsLexicographic(a[1..], b[1..]);
      if n: nat :| n <= |a[1..]| && n < |b[1..]| && a[1..][..n] == b[1..][..n] && (n == |a[1..]| || a[1..][n] < b[1..][n]) {
        assert a[..n + 1] == [a[0]] + a[1..][..n] && b[..n + 1] == [b[0]] + b[1..][..n];
        assert a[..n + 1] == b[..n + 1];
      }
      if n: nat :| n <= |a| && n < |b| && a[..n] == b[..n] && (n == |a| || a[n] < b[n]) {
        assert n > 0;
        assert a[1..][..n - 1] == a[..n][1..] && b[1..][..n - 1] == b[..n][1..];
      }
    } else {
      assert a[..0] == b[..0];
    }
  }

  lemma {:induction false} BeforeTotal(a: string, b: string)
    ensures Before(a, b) || a == b || Before(b, a)
    ensures !(Before(a, b) && Before(b, a)) && (a == b ==> !Before(a, b))
  {
    if a != "" && b != "" {
      BeforeTotal(a[1..], b[1..]);
      assert a == [a[0]] + a[1..] && b == [b[0]] + b[1..];
    }
  }

  lemma {:induction false} BeforeTransitive(a: string, b: string, c: string)
    requires Before(a, b) && Before(b, c)
    ensures Before(a, c)
  {
    if a != "" && a[0] == b[0] == c[0] {
      BeforeTransitive(a[1..], b[1..], c[1..]);
    }
  }

  ghost predicate StrictlySorted(s: seq<string>) {
    forall i, j :: 0 <= i < j < |s| ==> Before(s[i], s[j])
  }

  /** A strictly sorted list is determined by its entries. */
  lemma {:induction false} SortedUnique(s: seq<string>, t: seq<string>)
    requires StrictlySorted(s) && StrictlySorted(t)
    requires forall x :: x in s <==> x in t
    ensures s == t
  {
    assert t != [] ==> t[0] in t;
    if s != [] {
      assert s[0] in s && s[0] in t;
      assert t[0] in t && t[0] in s;
      SameHead(s, t);
      forall x
        ensures x in s[1..] <==> x in t[1..]
      {
        InTail(s, x);
        InTail(t, x);
      }
      SortedUnique(s[1..], t[1..]);
      assert s == [s[0]] + s[1..] && t == [t[0]] + t[1..];
    }
  }

  lemma SameHead(s: seq<string>, t: seq<string>)
    requires StrictlySorted(s) && StrictlySorted(t) && s != [] && t != [] && s[0] in t && t[0] in s
    ensures s[0] == t[0]
  {
    var i :| 0 <= i < |t| && t[i] == s[0];
    var j :| 0 <= j < |s| && s[j] == t[0];
    BeforeTotal(s[0], t[0]);
  }

  lemma InTail(s: seq<string>, x: string)
    requires StrictlySorted(s) && s != []
    ensures x in s[1..] <==> x in s && x != s[0]
  {
    BeforeTotal(s[0], s[0]);
    forall i | 1 <= i < |s|
      ensures s[i] != s[0]
    {
      BeforeTotal(s[0], s[i]);
    }
    if x in s && x != s[0] {
      var i :| 0 <= i < |s| && s[i] == x;
      assert s[1..][i - 1] == x;
    }
  }

  lemma InPlace(s: seq<string>, i: nat, x: string)
    requires StrictlySorted(s) && x !in s && i <= |s|
    requires (forall j :: 0 <= j < i ==> Before(s[j], x)) && (i < |s| ==> !Before(s[i], x))
    ensures StrictlySorted(s[..i] + [x] + s[i..])
  {
    if i < |s| {
      BeforeTotal(s[i], x);
      assert s[i] in s;
      forall j | i < j < |s|
        ensures Before(x, s[j])
      {
        BeforeTransitive(x, s[i], s[j]);
      }
    }
  }

  /** Put a new name in its place. */
  method InsertSorted(s: seq<string>, x: string) returns (t: seq<string>)
    requires StrictlySorted(s) && x !in s
    ensures StrictlySorted(t) && forall y :: y in t <==> y in s || y == x
  {
    var i := 0;
    while i < |s| && Before(s[i], x)
      invariant 0 <= i <= |s|
      invariant forall j :: 0 <= j < i ==> Before(s[j], x)
    {
      i := i + 1;
    }
    InPlace(s, i, x);
    t := s[..i] + [x] + s[i..];
    assert s == s[..i] + s[i..];
  }

  // ------------------------------------------------------------------
  // What a school has switched on
  // ------------------------------------------------------------------

  /** The `(module, missing requirement)` pairs of one member. */
  function MissingOf(s: set<Module>, m: Module, needed: seq<Module>): seq<(Module, Module)> {
    if needed == [] then []
    else
      var rest := MissingOf(s, m, needed[..|needed|-1]);
      var n := needed[|needed|-1];
      if n in s then rest else rest + [(m, n)]
  }

  /** And of all members among `order`, in that order. */
  function MissingAmong(s: set<Module>, order: seq<Module>): seq<(Module, Module)> {
    if order == [] then []
    else
      var rest := MissingAmong(s, order[..|order|-1]);
      var m := order[|order|-1];
      if m in s then rest + MissingOf(s, m, Requires(m)) else rest
  }

  function MissingRequirements(s: set<Module>): seq<(Module, Module)> {
    MissingAmong(s, ALL)
  }

  lemma {:induction false} MissingOfFacts(s: set<Module>, m: Module, needed: seq<Module>)
    requires Distinct(needed)
    ensures forall x, n :: (x, n) in MissingOf(s, m, needed) <==> x == m && n in needed && n !in s
    ensures Distinct(MissingOf(s, m, needed))
  {
    if needed != [] {
      MissingOfFacts(s, m, needed[..|needed|-1]);
      assert needed == needed[..|needed|-1] + [needed[|needed|-1]];
    }
  }

  lemma DistinctConcat<T>(a: seq<T>, b: seq<T>)
    requires Distinct(a) && Distinct(b) && forall x :: x in a ==> x !in b
    ensures Distinct(a + b)
  {
    forall i, j | 0 <= i < j < |a + b|
      ensures (a + b)[i] != (a + b)[j]
    {
      if i < |a| <= j {
        assert (a + b)[i] in a && (a + b)[j] in b;
      }
    }
  }

  lemma {:induction false} MissingAmongFacts(s: set<Module>, order: seq<Module>)
    requires Distinct(order)
    ensures forall m, n :: (m, n) in MissingAmong(s, order) <==> m in order && m in s && n in Requires(m) && n !in s
    ensures Distinct(MissingAmong(s, order))
  {
    if order != [] {
      var init, last := order[..|order|-1], order[|order|-1];
      MissingAmongFacts(s, init);
      MissingOfFacts(s, last, Requires(last));
      assert order == init + [last];
      if last in s {
        forall x | x in MissingAmong(s, init)
          ensures x !in MissingOf(s, last, Requires(last))
        {
          assert (x.0, x.1) in MissingAmong(s, init);
        }
        DistinctConcat(MissingAmong(s, init), MissingOf(s, last, Requires(last)));
      }
    }
  }

  ghost predicate Precedes<T>(s: seq<T>, x: T, y: T) {
    exists a, b :: 0 <= a < b < |s| && s[a] == x && s[b] == y
  }

  lemma PrecedesLater<T>(init: seq<T>, last: T, x: T, y: T)
    ensures Precedes(init, x, y) ==> Precedes(init + [last], x, y)
    ensures x in init ==> Precedes(init + [last], x, last)
  {
    var s := init + [last];
    if a, b :| 0 <= a < b < |init| && init[a] == x && init[b] == y {
      assert s[a] == x && s[b] == y;
    }
    if x in init {
      var a :| 0 <= a < |init| && init[a] == x;
      assert s[a] == x && s[|init|] == last;
    }
  }

  lemma {:induction false} MissingOfInOrder(s: set<Module>, m: Module, needed: seq<Module>)
    ensures forall x, n :: (x, n) in MissingOf(s, m, needed) ==> x == m && n in needed
    ensures forall i, j :: 0 <= i < j < |MissingOf(s, m, needed)| ==>
              Precedes(needed, MissingOf(s, m, needed)[i].1, MissingOf(s, m, needed)[j].1)
  {
    if needed != [] {
      var init, last := needed[..|needed|-1], needed[|needed|-1];
      MissingOfInOrder(s, m, init);
      assert needed == init + [last];
      var rest, list := MissingOf(s, m, init), MissingOf(s, m, needed);
      forall i, j | 0 <= i < j < |list|
        ensures Precedes(needed, list[i].1, list[j].1)
      {
        assert (rest[i].0, rest[i].1) in rest;
        PrecedesLater(init, last, list[i].1, list[j].1);
      }
    }
  }

  /** First by module, then by requirement, in the order of these two lists. */
  ghost predicate Listed(order: seq<Module>, list: seq<(Module, Module)>) {
    forall i, j :: 0 <= i < j < |list| ==>
      || Precedes(order, list[i].0, list[j].0)
      || (list[i].0 == list[j].0 && Precedes(Requires(list[i].0), list[i].1, list[j].1))
  }

  lemma {:induction false} MissingAmongInOrder(s: set<Module>, order: seq<Module>)
    ensures forall x, n :: (x, n) in MissingAmong(s, order) ==> x in order
    ensures Listed(order, MissingAmong(s, order))
  {
    if order != [] {
      var init, last := order[..|order|-1], order[|order|-1];
      MissingAmongInOrder(s, init);
      MissingOfInOrder(s, last, Requires(last));
      assert order == init + [last];
      var rest, more, list := MissingAmong(s, init), MissingOf(s, last, Requires(last)), MissingAmong(s, order);
      forall i, j | 0 <= i < j < |list|
        ensures || Precedes(order, list[i].0, list[j].0)
                || (list[i].0 == list[j].0 && Precedes(Requires(list[i].0), list[i].1, list[j].1))
      {
        if i < |rest| {
          assert (rest[i].0, rest[i].1) in rest;
          PrecedesLater(init, last, list[i].0, list[j].0);
        }
        if j >= |rest| {
          assert (more[j - |rest|].0, more[j - |rest|].1) in more;
        }
        if i >= |rest| {
          assert (more[i - |rest|].0, more[i - |rest|].1) in more;
        }
      }
    }
  }

  /** The list is in declaration order, of the modules and then of what each
      requires. */
  lemma ViolationsInOrder(s: set<Module>)
    ensures Listed(ALL, MissingRequirements(s))
  {
    MissingAmongInOrder(s, ALL);
  }

  /** The list names each violated requirement of the set exactly once, and
      nothing else. */
  lemma EachViolationOnce(s: set<Module>)
    ensures forall m, n :: (m, n) in MissingRequirements(s) <==> m in s && n in Requires(m) && n !in s
    ensures Distinct(MissingRequirements(s))
  {
    AllDistinct();
    MissingAmongFacts(s, ALL);
  }

  /** So a set is accepted exactly when it is closed. */
  lemma ValidIffClosed(s: set<Module>)
    ensures MissingRequirements(s) == [] <==> Closed(s, RequiredSet)
  {
    EachViolationOnce(s);
    if MissingRequirements(s) == [] {
      forall m | m in s
        ensures RequiredSet(m) <= s
      {
        forall n | n in RequiredSet(m)
          ensures n in s
        {
          assert (m, n) !in MissingRequirements(s);
        }
      }
    } else {
      var (m, n) := MissingRequirements(s)[0];
      assert (m, n) in MissingRequirements(s);
      assert n in RequiredSet(m) && n !in s;
    }
  }

  function Dependents(m: Module): set<Module> {
    set other | other in ALL && m in Requires(other)
  }

  /** From an accepted set, switching a module off is accepted exactly when no
      dependent is on, and switching one on exactly when all it requires is. */
  lemma SwitchAccepted(s: set<Module>, m: Module)
    requires MissingRequirements(s) == []
    ensures MissingRequirements(s - {m}) == [] <==> m !in s || Dependents(m) * s == {}
    ensures MissingRequirements(s + {m}) == [] <==> RequiredSet(m) <= s
  {
    ValidIffClosed(s);
    ValidIffClosed(s - {m});
    ValidIffClosed(s + {m});
    AllDistinct();
    NoCycle();
    assert m !in RequiredSet(m);
    if m in s {
      forall d
        ensures d in Dependents(m) <==> m in RequiredSet(d)
      {
        assert d in ALL;
      }
    } else {
      assert s - {m} == s;
    }
    if MissingRequirements(s + {m}) == [] {
      assert m in s + {m};
    }
  }

  /** Between any two sets a school may store there is a way in single switches,
      one for each module they differ in, that never leaves the accepted sets,
      and none is shorter. */
  lemma SchoolResellsStepwise(a: set<Module>, b: set<Module>) returns (path: seq<set<Module>>)
    requires MissingRequirements(a) == [] && MissingRequirements(b) == []
    ensures |path| == |(a - b) + (b - a)| + 1 && path[0] == a && path[|path|-1] == b
    ensures forall i :: 0 <= i < |path| ==> MissingRequirements(path[i]) == []
    ensures forall i :: 0 <= i < |path| - 1 ==> OneSwitch(path[i], path[i + 1])
  {
    ValidIffClosed(a);
    ValidIffClosed(b);
    NoCycle();
    path := OneStepReselling(a, b, RequiredSet, Depth);
    forall i | 0 <= i < |path|
      ensures MissingRequirements(path[i]) == []
    {
      ValidIffClosed(path[i]);
    }
  }

  /** The names of a set: every member's, once, sorted. */
  ghost predicate IsNamesOf(s: set<Module>, names: seq<string>) {
    StrictlySorted(names) && forall x :: x in names <==> exists m :: m in s && AsStr(m) == x
  }

  ghost predicate FirstUnknown(names: seq<string>, name: string) {
    !Known(name) && exists i :: 0 <= i < |names| && names[i] == name && AllKnown(names[..i])
  }

  ghost predicate AllKnown(names: seq<string>) {
    forall name :: name in names ==> Known(name)
  }

  lemma OneMoreName(names: seq<string>, i: nat, m: Module, members: set<Module>)
    requires i < |names| && AsStr(m) == names[i]
    requires forall n :: n in members <==> AsStr(n) in names[..i]
    ensures forall n :: n in members + {m} <==> AsStr(n) in names[..i + 1]
  {
    assert names[..i + 1] == names[..i] + [names[i]];
    forall n
      ensures n in members + {m} <==> AsStr(n) in names[..i + 1]
    {
      if AsStr(n) == names[i] { NamesDistinct(n, m); }
    }
  }

  class ModuleSet {
    var members: set<Module>

    constructor ()
      ensures members == {}
    {
      members := {};
    }

    method Insert(m: Module)
      modifies this
      ensures members == old(members) + {m}
    {
      members := members + {m};
    }

    method Remove(m: Module)
      modifies this
      ensures members == old(members) - {m}
    {
      members := members - {m};
    }

    /** Parse a list of names into this set; the first unknown one is the error. */
    method FromNames(names: seq<string>) returns (r: Result<(), string>)
      modifies this
      ensures r.Ok? <==> AllKnown(names)
      ensures r.Ok? ==> forall m :: m in members <==> AsStr(m) in names
      ensures r.Err? ==> FirstUnknown(names, r.error)
    {
      members := {};
      for i := 0 to |names|
        invariant AllKnown(names[..i])
        invariant forall m :: m in members <==> AsStr(m) in names[..i]
      {
        var found := TryFromStr(names[i]);
        match found {
          case None => return Err(names[i]);
          case Some(m) =>
            OneMoreName(names, i, m, members);
            Insert(m);
        }
      }
      assert names[..|names|] == names;
      return Ok(());
    }

    /** The stored form. */
    method Names() returns (names: seq<string>)
      ensures IsNamesOf(members, names)
    {
      names := [];
      for i := 0 to |ALL|
        invariant StrictlySorted(names)
        invariant forall x :: x in names <==> exists j :: 0 <= j < i && ALL[j] in members && AsStr(ALL[j]) == x
      {
        if ALL[i] in members {
          AllDistinct();
          forall j | 0 <= j < i
            ensures AsStr(ALL[j]) != AsStr(ALL[i])
          {
            if AsStr(ALL[j]) == AsStr(ALL[i]) { NamesDistinct(ALL[j], ALL[i]); }
          }
          names := InsertSorted(names, AsStr(ALL[i]));
        }
      }
      forall x
        ensures x in names <==> exists m :: m in members && AsStr(m) == x
      {
        if m :| m in members && AsStr(m) == x {
          assert ALL[Place(m)] == m;
        }
      }
    }

    /** Accept a closed set, and name every violated pair of any other. */
    method Validate() returns (r: Result<(), seq<(Module, Module)>>)
      ensures r.Ok? <==> Closed(members, RequiredSet)
      ensures r.Err? ==> r.error == MissingRequirements(members)
    {
      ValidIffClosed(members);
      var missing := MissingRequirements(members);
      if missing == [] {
        return Ok(());
      }
      return Err(missing);
    }
  }

  /** Reading back the stored names gives the set, and storing what a list of
      names parses to gives the sorted list of its distinct entries. */
  lemma StoredNamesRoundTrip(s: set<Module>, names: seq<string>, parsed: set<Module>, list: seq<string>)
    requires forall m :: m in parsed <==> AsStr(m) in list
    ensures IsNamesOf(s, names) && list == names ==> parsed == s
    ensures AllKnown(list) && IsNamesOf(parsed, names) ==> forall x :: x in names <==> x in list
  {
    if IsNamesOf(s, names) && list == names {
      forall m
        ensures m in parsed <==> m in s
      {
        if AsStr(m) in names {
          var n :| n in s && AsStr(n) == AsStr(m);
          NamesDistinct(n, m);
        }
      }
    }
    if AllKnown(list) && IsNamesOf(parsed, names) {
      forall x
        ensures x in names <==> x in list
      {
        if x in list {
          var m :| AsStr(m) == x;
        }
      }
    }
  }

  /** A set has one stored form. */
  lemma StoredNamesUnique(s: set<Module>, names: seq<string>, other: seq<string>)
    requires IsNamesOf(s, names) && IsNamesOf(s, other)
    ensures names == other
  {
    SortedUnique(names, other);
  }

  // ------------------------------------------------------------------
  // The names themselves
  // ------------------------------------------------------------------

  const BY_NAME: seq<Module> := [
    Appointments, Attendance, BankQuestions, Boards, Chatbot, Classes, CourseNotes, Courses, Events, Exams, Homework,
    Marks, Meals, Messages, Notes, Payments, Pomodoro, Questions, Sessions, Subjects, Work
  ]

  const NAMES: seq<string> := [
    "appointments", "attendance", "bank_questions", "boards", "chatbot", "classes", "course_notes", "courses", "events",
    "exams", "homework", "marks", "meals", "messages", "notes", "payments", "pomodoro", "questions", "sessions",
    "subjects", "work"
  ]

  function Rank(m: Module): (i: nat)
    ensures i < |BY_NAME| && BY_NAME[i] == m
  {
    match m
    case Appointments => 0
    case Attendance => 1
    case BankQuestions => 2
    case Boards => 3
    case Chatbot => 4
    case Classes => 5
    case CourseNotes => 6
    case Courses => 7
    case Events => 8
    case Exams => 9
    case Homework => 10
    case Marks => 11
    case Meals => 12
    case Messages => 13
    case Notes => 14
    case Payments => 15
    case Pomodoro => 16
    case Questions => 17
    case Sessions => 18
    case Subjects => 19
    case Work => 20
  }

  lemma NameOf(i: nat)
    requires i < |NAMES|
    ensures AsStr(BY_NAME[i]) == NAMES[i]
  {
  }

  /** Where two neighbours in the list first differ. */
  function Differ(i: nat): nat {
    if i == 6 then 6 else if i == 12 then 2 else if i == 0 || i == 2 || i == 4 || i == 5 || i == 8 || i == 11 || i == 15 || i == 18 then 1 else 0
  }

  lemma FirstDifference(a: string, b: string, n: nat)
    requires n < |a| && n < |b| && a[..n] == b[..n] && a[n] < b[n]
    ensures Before(a, b)
  {
    BeforeIsLexicographic(a, b);
  }

  lemma EarlyNeighbours(i: nat)
    requires i < 10
    ensures Before(NAMES[i], NAMES[i + 1])
  {
    FirstDifference(NAMES[i], NAMES[i + 1], Differ(i));
  }

  lemma LateNeighbours(i: nat)
    requires 10 <= i < 20
    ensures Before(NAMES[i], NAMES[i + 1])
  {
    FirstDifference(NAMES[i], NAMES[i + 1], Differ(i));
  }

  lemma {:induction false} NeighboursSorted(s: seq<string>)
    requires forall i :: 0 <= i && i + 1 < |s| ==> Before(s[i], s[i + 1])
    ensures StrictlySorted(s)
  {
    if |s| > 1 {
      var init := s[..|s| - 1];
      NeighboursSorted(init);
      forall i | 0 <= i < |s| - 1
        ensures Before(s[i], s[|s| - 1])
      {
        if i < |s| - 2 {
          assert Before(init[i], init[|s| - 2]);
          BeforeTransitive(s[i], s[|s| - 2], s[|s| - 1]);
        }
      }
    }
  }

  /** What a school with everything switched on stores. */
  lemma NamesOfEverything()
    ensures IsNamesOf((set m | m in ALL), NAMES)
  {
    forall i | 0 <= i && i + 1 < |NAMES|
      ensures Before(NAMES[i], NAMES[i + 1])
    {
      if i < 10 { EarlyNeighbours(i); } else { LateNeighbours(i); }
    }
    NeighboursSorted(NAMES);
    AllDistinct();
    forall x
      ensures x in NAMES <==> exists m :: m in ALL && AsStr(m) == x
    {
      if x in NAMES {
        var i :| 0 <= i < |NAMES| && NAMES[i] == x;
        NameOf(i);
        assert BY_NAME[i] in ALL;
      }
      if m :| m in ALL && AsStr(m) == x {
        NameOf(Rank(m));
      }
    }
  }
}
