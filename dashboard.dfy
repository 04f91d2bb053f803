/** Dashboard aggregation over already-fetched user and trip documents: date-range counts,
    the role filter, the stats record, and the per-key counters built with `reduce`. */
module Dashboard {
  import opened Js
  import opened Sequences
  import Utils
  import Trips

  /** A user document: `status` is None when the attribute is missing. */
  datatype UserDoc = UserDoc(status: Option<string>, joinedAt: string)

  /** A trip document, as the trip data-access layer defines it. */
  type TripDoc = Trips.TripDocument

  function JoinedAt(u: UserDoc): string { u.joinedAt }
  function CreatedAt(t: TripDoc): string { t.createdAt }

  // ---------------------------------------------------------------------------
  // filterByDate

  /** JavaScript's `a <= b` on strings: lexicographic order of the characters. */
  predicate StrLe(a: string, b: string)
    decreases |a|
  {
    a == [] || (b != [] && (a[0] < b[0] || (a[0] == b[0] && StrLe(a[1..], b[1..]))))
  }

  lemma {:induction false} StrLeTotal(a: string, b: string)
    ensures StrLe(a, b) || StrLe(b, a)
    decreases |a|
  {
    if a != [] && b != [] && a[0] == b[0] {
      StrLeTotal(a[1..], b[1..]);
    }
  }

  lemma {:induction false} StrLeTransitive(a: string, b: string, c: string)
    requires StrLe(a, b) && StrLe(b, c)
    ensures StrLe(a, c)
    decreases |a|
  {
    if a != [] && a[0] == b[0] && b[0] == c[0] {
      StrLeTransitive(a[1..], b[1..], c[1..]);
    }
  }

  lemma {:induction false} StrLeAntisymmetric(a: string, b: string)
    requires StrLe(a, b) && StrLe(b, a)
    ensures a == b
    decreases |a|
  {
    if a != [] {
      StrLeAntisymmetric(a[1..], b[1..]);
    }
  }

  /** `item[key] >= start && (!end || item[key] <= end)`: an empty end is falsy, no bound. */
  predicate InDateRange(value: string, start: string, end: Option<string>) {
    StrLe(start, value) && (end.None? || end.value == "" || StrLe(value, end.value))
  }

  /** filterByDate: the number of items whose key lies in the range. */
  function FilterByDate<D>(items: seq<D>, key: D -> string, start: string, end: Option<string>): (n: nat)
    ensures n <= |items|
    ensures n == |items| <==> forall i :: 0 <= i < |items| ==> InDateRange(key(items[i]), start, end)
  {
    if items == [] then 0
    else (if InDateRange(key(items[0]), start, end) then 1 else 0) + FilterByDate(items[1..], key, start, end)
  }

  /** An end bound can only lower the count. */
  lemma {:induction false} EndBoundNarrows<D>(items: seq<D>, key: D -> string, start: string, end: string)
    ensures FilterByDate(items, key, start, Some(end)) <= FilterByDate(items, key, start, None)
  {
    if items != [] {
      EndBoundNarrows(items[1..], key, start, end);
    }
  }

  /** A later start can only lower the count. */
  lemma {:induction false} LaterStartNarrows<D>(items: seq<D>, key: D -> string, early: string, late: string, end: Option<string>)
    requires StrLe(early, late)
    ensures FilterByDate(items, key, late, end) <= FilterByDate(items, key, early, end)
  {
    if items != [] {
      if StrLe(late, key(items[0])) {
        StrLeTransitive(early, late, key(items[0]));
      }
      LaterStartNarrows(items[1..], key, early, late, end);
    }
  }

  /** Counting over a selection of the items counts no more than over all of them. */
  lemma {:induction false} SubsequenceCountsLess<D>(a: seq<D>, b: seq<D>, key: D -> string, start: string, end: Option<string>)
    requires IsSubsequence(a, b)
    ensures FilterByDate(a, key, start, end) <= FilterByDate(b, key, start, end)
    decreases |b|
  {
    if a != [] {
      if a[0] == b[0] && IsSubsequence(a[1..], b[1..]) {
        SubsequenceCountsLess(a[1..], b[1..], key, start, end);
      } else {
        SubsequenceCountsLess(a, b[1..], key, start, end);
      }
    } else {
      assert FilterByDate(a, key, start, end) == 0;
    }
  }

  // ---------------------------------------------------------------------------
  // filterUsersByRole

  /** The number of user documents whose status is `role`. */
  function CountStatus(users: seq<UserDoc>, role: string): nat {
    if users == [] then 0
    else (if users[0].status == Some(role) then 1 else 0) + CountStatus(users[1..], role)
  }

  /** filterUsersByRole: exactly the users whose status is `role`, in their original order,
      each as often as it occurs. */
  function FilterUsersByRole(users: seq<UserDoc>, role: string): (r: seq<UserDoc>)
    ensures IsSubsequence(r, users)
    ensures forall u :: u in r ==> u.status == Some(role)
    ensures forall u :: u in users && u.status == Some(role) ==> u in r
    ensures |r| == CountStatus(users, role)
  {
    if users == [] then []
    else
      var rest := FilterUsersByRole(users[1..], role);
      if users[0].status == Some(role) then [users[0]] + rest else rest
  }

  // ---------------------------------------------------------------------------
  // getUsersAndTripsStats

  /** The month boundaries as ISO strings (their computation from the clock is not modelled). */
  datatype MonthBounds = MonthBounds(startCurrent: string, startPrev: string, endPrev: string)

  datatype MonthCounts = MonthCounts(currentMonth: nat, lastMonth: nat)
  datatype RoleCounts = RoleCounts(total: nat, currentMonth: nat, lastMonth: nat)
  datatype DashboardStats = DashboardStats(
    totalUsers: int,
    usersJoined: MonthCounts,
    userRole: RoleCounts,
    totalTrips: int,
    tripsCreated: MonthCounts)

  /** The counts that do not involve trips' last month, shared by both versions below. */
  function UserCounts(users: Trips.Listing<UserDoc>, b: MonthBounds): (r: (MonthCounts, RoleCounts))
    ensures r.0.currentMonth == FilterByDate(users.documents, JoinedAt, b.startCurrent, None)
    ensures r.0.lastMonth == FilterByDate(users.documents, JoinedAt, b.startPrev, Some(b.endPrev))
    ensures r.1.total == CountStatus(users.documents, "user")
    ensures r.1.currentMonth == FilterByDate(FilterUsersByRole(users.documents, "user"), JoinedAt, b.startCurrent, None)
    ensures r.1.lastMonth == FilterByDate(FilterUsersByRole(users.documents, "user"), JoinedAt, b.startPrev, Some(b.endPrev))
    ensures r.1.total <= |users.documents|
    ensures r.1.currentMonth <= r.0.currentMonth && r.1.lastMonth <= r.0.lastMonth
  {
    var regular := FilterUsersByRole(users.documents, "user");
    SubsequenceLength(regular, users.documents);
    SubsequenceCountsLess(regular, users.documents, JoinedAt, b.startCurrent, None);
    SubsequenceCountsLess(regular, users.documents, JoinedAt, b.startPrev, Some(b.endPrev));
    (MonthCounts(FilterByDate(users.documents, JoinedAt, b.startCurrent, None),
                 FilterByDate(users.documents, JoinedAt, b.startPrev, Some(b.endPrev))),
     RoleCounts(|regular|,
                FilterByDate(regular, JoinedAt, b.startCurrent, None),
                FilterByDate(regular, JoinedAt, b.startPrev, Some(b.endPrev))))
  }

  /** getUsersAndTripsStats as written: `tripsCreated.lastMonth` counts the `user`-role
      users who joined last month, not the trips created last month. */
  function UsersAndTripsStatsAsWritten(users: Trips.Listing<UserDoc>, trips: Trips.Listing<TripDoc>, b: MonthBounds): (s: DashboardStats)
    ensures s.totalUsers == users.total && s.totalTrips == trips.total
    // users who joined this month (no end bound) and from the start to the end of last month
    ensures s.usersJoined.currentMonth == FilterByDate(users.documents, JoinedAt, b.startCurrent, None)
    ensures s.usersJoined.lastMonth == FilterByDate(users.documents, JoinedAt, b.startPrev, Some(b.endPrev))
    // the same counts over the `user`-status documents only
    ensures s.userRole.total == CountStatus(users.documents, "user")
    ensures s.userRole.currentMonth == FilterByDate(FilterUsersByRole(users.documents, "user"), JoinedAt, b.startCurrent, None)
    ensures s.userRole.lastMonth == FilterByDate(FilterUsersByRole(users.documents, "user"), JoinedAt, b.startPrev, Some(b.endPrev))
    ensures s.tripsCreated.currentMonth == FilterByDate(trips.documents, CreatedAt, b.startCurrent, None)
    ensures s.userRole.total <= |users.documents|
    ensures s.userRole.currentMonth <= s.usersJoined.currentMonth
    ensures s.userRole.lastMonth <= s.usersJoined.lastMonth
    ensures s.tripsCreated.currentMonth <= |trips.documents|
    ensures s.tripsCreated.lastMonth == s.userRole.lastMonth
  {
    var (joined, role) := UserCounts(users, b);
    DashboardStats(
      users.total, joined, role, trips.total,
      MonthCounts(FilterByDate(trips.documents, CreatedAt, b.startCurrent, None),
                  FilterByDate(FilterUsersByRole(users.documents, "user"), JoinedAt, b.startPrev, Some(b.endPrev))))
  }

  /** getUsersAndTripsStats with `tripsCreated.lastMonth` counting trips created in the
      previous month, as the field's name and its `currentMonth` sibling intend. */
  function UsersAndTripsStats(users: Trips.Listing<UserDoc>, trips: Trips.Listing<TripDoc>, b: MonthBounds): (s: DashboardStats)
    ensures s.totalUsers == users.total && s.totalTrips == trips.total
    ensures s.userRole.total <= |users.documents|
    ensures s.userRole.currentMonth <= s.usersJoined.currentMonth
    ensures s.userRole.lastMonth <= s.usersJoined.lastMonth
    ensures s.tripsCreated.currentMonth <= |trips.documents|
    ensures s.tripsCreated.lastMonth <= |trips.documents|
    ensures s.tripsCreated.lastMonth == FilterByDate(trips.documents, CreatedAt, b.startPrev, Some(b.endPrev))
    ensures UsersAndTripsStatsAsWritten(users, trips, b) == s.(tripsCreated := s.tripsCreated.(lastMonth := s.userRole.lastMonth))
  {
    var (joined, role) := UserCounts(users, b);
    DashboardStats(
      users.total, joined, role, trips.total,
      MonthCounts(FilterByDate(trips.documents, CreatedAt, b.startCurrent, None),
                  FilterByDate(trips.documents, CreatedAt, b.startPrev, Some(b.endPrev))))
  }

  /** One `user` who joined last month and no trips at all: the stats as written report a
      trip created last month. */
  lemma TripsLastMonthCountsUsers()
    ensures var users := Trips.Listing([UserDoc(Some("user"), "2025-10-15")], 1);
            var trips: Trips.Listing<TripDoc> := Trips.Listing([], 0);
            var b := MonthBounds("2025-11-01", "2025-10-01", "2025-10-31");
            UsersAndTripsStatsAsWritten(users, trips, b).tripsCreated.lastMonth == 1
            && UsersAndTripsStats(users, trips, b).tripsCreated.lastMonth == 0
  {
    var u := UserDoc(Some("user"), "2025-10-15");
    MidOctoberInRange();
    assert FilterUsersByRole([u], "user") == [u];
    assert FilterByDate([u], JoinedAt, "2025-10-01", Some("2025-10-31")) == 1;
  }

  /** 2025-10-15 lies between 2025-10-01 and 2025-10-31 in the string order. */
  lemma MidOctoberInRange()
    ensures InDateRange("2025-10-15", "2025-10-01", Some("2025-10-31"))
  {
    assert StrLe("2025-10-01", "2025-10-15") by {
      var a, c := "2025-10-01", "2025-10-15";
      assert StrLe(a[8..], c[8..]);
      assert StrLe(a[7..], c[7..]);
      assert StrLe(a[6..], c[6..]);
      assert StrLe(a[5..], c[5..]);
      assert StrLe(a[4..], c[4..]);
      assert StrLe(a[3..], c[3..]);
      assert StrLe(a[2..], c[2..]);
      assert StrLe(a[1..], c[1..]);
    }
    assert StrLe("2025-10-15", "2025-10-31") by {
      var a, c := "2025-10-15", "2025-10-31";
      assert StrLe(a[8..], c[8..]);
      assert StrLe(a[7..], c[7..]);
      assert StrLe(a[6..], c[6..]);
      assert StrLe(a[5..], c[5..]);
      assert StrLe(a[4..], c[4..]);
      assert StrLe(a[3..], c[3..]);
      assert StrLe(a[2..], c[2..]);
      assert StrLe(a[1..], c[1..]);
    }
  }

  // ---------------------------------------------------------------------------
  // The per-key counters of getUserGrowthPerDay, getTripsCreatedPerDay and getTripsByTravelStyle

  /** One element of `Object.entries(acc)` mapped to a record. */
  datatype KeyCount = KeyCount(key: string, count: nat)

  /** The accumulator object after reducing `docs`: the count per key. Documents whose key
      is None are skipped. */
  function Tally<D>(docs: seq<D>, key: D -> Option<string>): map<string, nat> {
    if docs == [] then map[]
    else
      var m := Tally(docs[..|docs| - 1], key);
      match key(docs[|docs| - 1])
      case None => m
      case Some(k) => m[k := (if k in m then m[k] else 0) + 1]
  }

  /** The keys of the accumulator object in insertion order, which is the order of
      `Object.entries`. */
  function KeyOrder<D>(docs: seq<D>, key: D -> Option<string>): seq<string> {
    if docs == [] then []
    else
      var order := KeyOrder(docs[..|docs| - 1], key);
      match key(docs[|docs| - 1])
      case None => order
      case Some(k) => if k in Tally(docs[..|docs| - 1], key) then order else order + [k]
  }

  /** The number of documents that have key `k`. */
  function Occurrences<D>(docs: seq<D>, key: D -> Option<string>, k: string): nat {
    if docs == [] then 0
    else Occurrences(docs[..|docs| - 1], key, k) + (if key(docs[|docs| - 1]) == Some(k) then 1 else 0)
  }

  /** The number of documents that have a key at all. */
  function Keyed<D>(docs: seq<D>, key: D -> Option<string>): nat {
    if docs == [] then 0
    else Keyed(docs[..|docs| - 1], key) + (if key(docs[|docs| - 1]).Some? then 1 else 0)
  }

  function Entries(order: seq<string>, m: map<string, nat>): (entries: seq<KeyCount>)
    requires forall k :: k in order ==> k in m
    ensures |entries| == |order|
  {
    if order == [] then [] else Entries(order[..|order| - 1], m) + [KeyCount(order[|order| - 1], m[order[|order| - 1]])]
  }

  function SumCounts(entries: seq<KeyCount>): nat {
    if entries == [] then 0 else SumCounts(entries[..|entries| - 1]) + entries[|entries| - 1].count
  }

  lemma {:induction false} EntriesShape(order: seq<string>, m: map<string, nat>)
    requires forall k :: k in order ==> k in m
    ensures |Entries(order, m)| == |order|
    ensures forall i :: 0 <= i < |order| ==> Entries(order, m)[i] == KeyCount(order[i], m[order[i]])
  {
    if order != [] {
      EntriesShape(order[..|order| - 1], m);
    }
  }

  lemma {:induction false} SumUnchanged(order: seq<string>, m: map<string, nat>, m': map<string, nat>)
    requires forall k :: k in order ==> k in m && k in m' && m[k] == m'[k]
    ensures SumCounts(Entries(order, m)) == SumCounts(Entries(order, m'))
  {
    if order != [] {
      SumUnchanged(order[..|order| - 1], m, m');
      assert Entries(order, m)[..|order| - 1] == Entries(order[..|order| - 1], m);
      assert Entries(order, m')[..|order| - 1] == Entries(order[..|order| - 1], m');
    }
  }

  lemma {:induction false} SumBump(order: seq<string>, m: map<string, nat>, k: string)
    requires Distinct(order) && k in order
    requires forall x :: x in order ==> x in m
    ensures SumCounts(Entries(order, m[k := m[k] + 1])) == SumCounts(Entries(order, m)) + 1
  {
    var m' := m[k := m[k] + 1];
    var front := order[..|order| - 1];
    assert Entries(order, m)[..|order| - 1] == Entries(front, m);
    assert Entries(order, m')[..|order| - 1] == Entries(front, m');
    if order[|order| - 1] == k {
      assert k !in front;
      SumUnchanged(front, m, m');
    } else {
      assert k in front;
      SumBump(front, m, k);
    }
  }

  /** One more document extends the accumulator and the key order as `reduce` does. */
  lemma TallyStep<D>(docs: seq<D>, i: nat, key: D -> Option<string>)
    requires i < |docs|
    ensures Tally(docs[..i + 1], key) ==
              match key(docs[i])
              case None => Tally(docs[..i], key)
              case Some(k) => Tally(docs[..i], key)[k := (if k in Tally(docs[..i], key) then Tally(docs[..i], key)[k] else 0) + 1]
    ensures KeyOrder(docs[..i + 1], key) ==
              match key(docs[i])
              case None => KeyOrder(docs[..i], key)
              case Some(k) => if k in Tally(docs[..i], key) then KeyOrder(docs[..i], key) else KeyOrder(docs[..i], key) + [k]
  {
    assert docs[..i + 1][..i] == docs[..i];
  }

  /** The keys of the accumulator, in insertion order without repetition. */
  lemma {:induction false} TallyKeys<D>(docs: seq<D>, key: D -> Option<string>)
    ensures forall k :: k in KeyOrder(docs, key) <==> k in Tally(docs, key)
    ensures Distinct(KeyOrder(docs, key))
  {
    if docs != [] {
      TallyKeys(docs[..|docs| - 1], key);
    }
  }

  /** Each count is the number of documents with that key, and a key is present exactly
      when some document has it. */
  lemma {:induction false} TallyCounts<D>(docs: seq<D>, key: D -> Option<string>)
    ensures forall k :: k in Tally(docs, key) <==> Occurrences(docs, key, k) > 0
    ensures forall k :: k in Tally(docs, key) ==> Tally(docs, key)[k] == Occurrences(docs, key, k)
  {
    if docs != [] {
      TallyCounts(docs[..|docs| - 1], key);
    }
  }

  /** The counts of the entries add up to the number of keyed documents. */
  lemma {:induction false} TallySum<D>(docs: seq<D>, key: D -> Option<string>)
    ensures forall k :: k in KeyOrder(docs, key) ==> k in Tally(docs, key)
    ensures SumCounts(Entries(KeyOrder(docs, key), Tally(docs, key))) == Keyed(docs, key)
  {
    TallyKeys(docs, key);
    if docs != [] {
      var front := docs[..|docs| - 1];
      TallySum(front, key);
      TallyKeys(front, key);
      var m, order := Tally(front, key), KeyOrder(front, key);
      match key(docs[|docs| - 1])
      case None =>
      case Some(k) =>
        if k in m {
          SumBump(order, m, k);
        } else {
          var m' := m[k := 1];
          assert Entries(order + [k], m')[..|order|] == Entries(order, m');
          SumUnchanged(order, m, m');
        }
    }
  }

  /** The reduce loop: `acc[k] = (acc[k] || 0) + 1` for every document with a key; `order`
      tracks the insertion order of the accumulator's keys. */
  method Reduce<D>(docs: seq<D>, key: D -> Option<string>) returns (acc: map<string, nat>, order: seq<string>)
    ensures acc == Tally(docs, key) && order == KeyOrder(docs, key)
  {
    acc, order := map[], [];
    for i := 0 to |docs|
      invariant acc == Tally(docs[..i], key)
      invariant order == KeyOrder(docs[..i], key)
    {
      TallyStep(docs, i, key);
      match key(docs[i])
      case None =>
      case Some(k) =>
        if k !in acc {
          order := order + [k];
        }
        acc := acc[k := (if k in acc then acc[k] else 0) + 1];
    }
    assert docs[..|docs|] == docs;
  }

  /** The reduce followed by `Object.entries(acc)`: one entry per distinct key, in insertion
      order, counting the documents with that key. */
  method CountByKey<D>(docs: seq<D>, key: D -> Option<string>) returns (entries: seq<KeyCount>)
    ensures |entries| == |KeyOrder(docs, key)|
    ensures forall i :: 0 <= i < |entries| ==> entries[i].key == KeyOrder(docs, key)[i]
    ensures forall i, j :: 0 <= i < j < |entries| ==> entries[i].key != entries[j].key
    ensures forall i :: 0 <= i < |entries| ==>
              entries[i].count == Occurrences(docs, key, entries[i].key) && entries[i].count >= 1
    ensures forall k :: Occurrences(docs, key, k) > 0 ==> exists i :: 0 <= i < |entries| && entries[i].key == k
    ensures forall i :: 0 <= i < |entries| ==> exists d :: d in docs && key(d) == Some(entries[i].key)
    ensures SumCounts(entries) == Keyed(docs, key)
  {
    var acc, order := Reduce(docs, key);
    TallyKeys(docs, key);
    entries := Entries(order, acc);
    HistogramOrder(docs, key);
    HistogramCoverage(docs, key);
    TallySum(docs, key);
  }

  /** The entries of `Object.entries(acc)` after the reduce. */
  function Histogram<D>(docs: seq<D>, key: D -> Option<string>): seq<KeyCount> {
    TallyKeys(docs, key);
    Entries(KeyOrder(docs, key), Tally(docs, key))
  }

  /** The entries follow the key order, have distinct keys, and count each key's documents. */
  lemma HistogramOrder<D>(docs: seq<D>, key: D -> Option<string>)
    ensures var e := Histogram(docs, key);
            && |e| == |KeyOrder(docs, key)|
            && (forall i :: 0 <= i < |e| ==> e[i].key == KeyOrder(docs, key)[i])
            && (forall i, j :: 0 <= i < j < |e| ==> e[i].key != e[j].key)
            && (forall i :: 0 <= i < |e| ==> e[i].count == Occurrences(docs, key, e[i].key) && e[i].count >= 1)
  {
    TallyKeys(docs, key);
    TallyCounts(docs, key);
    EntriesShape(KeyOrder(docs, key), Tally(docs, key));
  }

  /** Exactly the keys that occur are listed. */
  lemma HistogramCoverage<D>(docs: seq<D>, key: D -> Option<string>)
    ensures var e := Histogram(docs, key);
            && (forall k :: Occurrences(docs, key, k) > 0 ==> exists i :: 0 <= i < |e| && e[i].key == k)
            && (forall i :: 0 <= i < |e| ==> exists d :: d in docs && key(d) == Some(e[i].key))
  {
    var order := KeyOrder(docs, key);
    TallyKeys(docs, key);
    TallyCounts(docs, key);
    EntriesShape(order, Tally(docs, key));
    var e := Histogram(docs, key);
    forall k | Occurrences(docs, key, k) > 0 ensures exists i :: 0 <= i < |e| && e[i].key == k {
      var i :| 0 <= i < |order| && order[i] == k;
      assert e[i].key == k;
    }
    KeyOrderWitnessed(docs, key);
    forall i | 0 <= i < |e| ensures exists d :: d in docs && key(d) == Some(e[i].key) {
      assert e[i].key in order;
    }
  }

  /** Every key in the key order is the key of some document. */
  lemma KeyOrderWitnessed<D>(docs: seq<D>, key: D -> Option<string>)
    ensures forall k :: k in KeyOrder(docs, key) ==> exists d :: d in docs && key(d) == Some(k)
  {
    TallyKeys(docs, key);
    TallyCounts(docs, key);
    forall k | k in KeyOrder(docs, key) ensures exists d :: d in docs && key(d) == Some(k) {
      OccurrenceWitness(docs, key, k);
    }
  }

  /** A key that occurs is the key of some document. */
  lemma {:induction false} OccurrenceWitness<D>(docs: seq<D>, key: D -> Option<string>, k: string)
    requires Occurrences(docs, key, k) > 0
    ensures exists d :: d in docs && key(d) == Some(k)
  {
    var front := docs[..|docs| - 1];
    if key(docs[|docs| - 1]) == Some(k) {
      assert docs[|docs| - 1] in docs;
    } else {
      OccurrenceWitness(front, key, k);
      var d :| d in front && key(d) == Some(k);
      assert d in docs;
    }
  }

  /** The key function of the per-day counters: every document has a day. */
  function DayKey<D>(dayOf: D -> string): D -> Option<string> {
    d => Some(dayOf(d))
  }

  /** getUserGrowthPerDay: users counted per day key (`dayOf` stands for the locale date
      of `joinedAt`). Every user is counted under its day. */
  method GetUserGrowthPerDay(users: seq<UserDoc>, dayOf: UserDoc -> string) returns (growth: seq<KeyCount>)
    ensures |growth| == |KeyOrder(users, DayKey(dayOf))|
    ensures forall i :: 0 <= i < |growth| ==> growth[i].key == KeyOrder(users, DayKey(dayOf))[i]
    ensures forall i, j :: 0 <= i < j < |growth| ==> growth[i].key != growth[j].key
    ensures forall i :: 0 <= i < |growth| ==> growth[i].count == Occurrences(users, DayKey(dayOf), growth[i].key)
    ensures forall i :: 0 <= i < |growth| ==> growth[i].count >= 1
    ensures forall i :: 0 <= i < |growth| ==> exists u :: u in users && dayOf(u) == growth[i].key
    ensures forall u :: u in users ==> exists i :: 0 <= i < |growth| && growth[i].key == dayOf(u)
    ensures SumCounts(growth) == |users|
  {
    var key := DayKey(dayOf);
    growth := CountByKey(users, key);
    AllKeyed(users, key);
    forall u | u in users ensures exists i :: 0 <= i < |growth| && growth[i].key == dayOf(u) {
      OccursCounted(users, key, u);
    }
  }

  /** getTripsCreatedPerDay: trips counted per day key (`dayOf` stands for the locale date
      of `createdAt`). Every trip is counted under its day. */
  method GetTripsCreatedPerDay(trips: seq<TripDoc>, dayOf: TripDoc -> string) returns (perDay: seq<KeyCount>)
    ensures |perDay| == |KeyOrder(trips, DayKey(dayOf))|
    ensures forall i :: 0 <= i < |perDay| ==> perDay[i].key == KeyOrder(trips, DayKey(dayOf))[i]
    ensures forall i, j :: 0 <= i < j < |perDay| ==> perDay[i].key != perDay[j].key
    ensures forall i :: 0 <= i < |perDay| ==> perDay[i].count == Occurrences(trips, DayKey(dayOf), perDay[i].key)
    ensures forall i :: 0 <= i < |perDay| ==> perDay[i].count >= 1
    ensures forall i :: 0 <= i < |perDay| ==> exists t :: t in trips && dayOf(t) == perDay[i].key
    ensures forall t :: t in trips ==> exists i :: 0 <= i < |perDay| && perDay[i].key == dayOf(t)
    ensures SumCounts(perDay) == |trips|
  {
    var key := DayKey(dayOf);
    perDay := CountByKey(trips, key);
    AllKeyed(trips, key);
    forall t | t in trips ensures exists i :: 0 <= i < |perDay| && perDay[i].key == dayOf(t) {
      OccursCounted(trips, key, t);
    }
  }

  lemma {:induction false} AllKeyed<D>(docs: seq<D>, key: D -> Option<string>)
    requires forall d :: key(d).Some?
    ensures Keyed(docs, key) == |docs|
  {
    if docs != [] {
      AllKeyed(docs[..|docs| - 1], key);
    }
  }

  lemma {:induction false} OccursCounted<D>(docs: seq<D>, key: D -> Option<string>, d: D)
    requires d in docs && key(d).Some?
    ensures Occurrences(docs, key, key(d).value) > 0
  {
    if docs[|docs| - 1] != d {
      assert d in docs[..|docs| - 1];
      OccursCounted(docs[..|docs| - 1], key, d);
    }
  }

  /** The key a trip is counted under by getTripsByTravelStyle: `parseTripData(tripDetail)`
      must be truthy and have a truthy `travelStyle`; a string style is its own key, any
      other value becomes a key through `toKey` (the String conversion of a property key). */
  function TravelStyleKey(trip: TripDoc, parse: string -> Option<Json>, toKey: Json -> string): (k: Option<string>)
    ensures var detail := Utils.ParseTripData(trip.tripDetail, parse);
            && (k.Some? <==> parse(trip.tripDetail).Some? && detail.JObj? && "travelStyle" in detail.fields
                             && Truthy(detail.fields["travelStyle"]))
            && (k.Some? && detail.fields["travelStyle"].JStr? ==> k.value == detail.fields["travelStyle"].s)
  {
    var detail := Utils.ParseTripData(trip.tripDetail, parse);
    if Truthy(detail) && TruthyProp(detail, "travelStyle") then
      var style := Prop(detail, "travelStyle").value;
      Some(if style.JStr? then style.s else toKey(style))
    else None
  }

  /** The key function of getTripsByTravelStyle. */
  function StyleKey(parse: string -> Option<Json>, toKey: Json -> string): TripDoc -> Option<string> {
    t => TravelStyleKey(t, parse, toKey)
  }

  /** The number of trips whose parsed detail has a truthy travel style. */
  function StyledTrips(trips: seq<TripDoc>, parse: string -> Option<Json>): nat {
    if trips == [] then 0
    else
      var detail := Utils.ParseTripData(trips[0].tripDetail, parse);
      (if Truthy(detail) && TruthyProp(detail, "travelStyle") then 1 else 0) + StyledTrips(trips[1..], parse)
  }

  lemma {:induction false} StyledTripsSplit(trips: seq<TripDoc>, parse: string -> Option<Json>)
    requires trips != []
    ensures StyledTrips(trips, parse) == StyledTrips(trips[..|trips| - 1], parse)
              + (var detail := Utils.ParseTripData(trips[|trips| - 1].tripDetail, parse);
                 if Truthy(detail) && TruthyProp(detail, "travelStyle") then 1 else 0)
  {
    if |trips| > 1 {
      StyledTripsSplit(trips[1..], parse);
      assert trips[1..][..|trips| - 2] == trips[..|trips| - 1][1..];
    }
  }

  lemma {:induction false} StyledIsKeyed(trips: seq<TripDoc>, parse: string -> Option<Json>, toKey: Json -> string)
    ensures Keyed(trips, StyleKey(parse, toKey)) == StyledTrips(trips, parse)
  {
    if trips != [] {
      StyledIsKeyed(trips[..|trips| - 1], parse, toKey);
      StyledTripsSplit(trips, parse);
    }
  }

  /** getTripsByTravelStyle: trips counted per travel style, only those whose detail parses
      to a value with a truthy `travelStyle`; the counts add up to the number of such trips. */
  method GetTripsByTravelStyle(trips: seq<TripDoc>, parse: string -> Option<Json>, toKey: Json -> string)
    returns (styles: seq<KeyCount>)
    ensures |styles| == |KeyOrder(trips, StyleKey(parse, toKey))|
    ensures forall i :: 0 <= i < |styles| ==> styles[i].key == KeyOrder(trips, StyleKey(parse, toKey))[i]
    ensures forall i, j :: 0 <= i < j < |styles| ==> styles[i].key != styles[j].key
    ensures forall i :: 0 <= i < |styles| ==> styles[i].count == Occurrences(trips, StyleKey(parse, toKey), styles[i].key)
    ensures forall i :: 0 <= i < |styles| ==> styles[i].count >= 1
    ensures forall i :: 0 <= i < |styles| ==>
              exists t :: t in trips && TravelStyleKey(t, parse, toKey) == Some(styles[i].key)
    ensures forall t :: t in trips && TravelStyleKey(t, parse, toKey).Some? ==>
              exists i :: 0 <= i < |styles| && styles[i].key == TravelStyleKey(t, parse, toKey).value
    ensures SumCounts(styles) == StyledTrips(trips, parse)
  {
    var key := StyleKey(parse, toKey);
    styles := CountByKey(trips, key);
    StyledIsKeyed(trips, parse, toKey);
    forall t | t in trips && TravelStyleKey(t, parse, toKey).Some?
      ensures exists i :: 0 <= i < |styles| && styles[i].key == TravelStyleKey(t, parse, toKey).value
    {
      OccursCounted(trips, key, t);
    }
  }
}
