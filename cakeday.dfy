/**
 * The cakeday roster (cakeday.py, `get_members`): the guild members whose join date has
 * its anniversary today, each with the number of years since joining, ordered by years
 * and then by name. The source builds the list with a loop and then sorts it in place
 * twice with Python's stable `list.sort`: first by member (the name), then by years.
 */
module Cakeday {
  import opened Calendar
  import opened Text
  import opened Discord

  /** One roster entry: the `(member, years)` tuple of the source. */
  datatype Anniversary = Anniversary(member: Member, years: int)

  /** Joined on today's month and day, in an earlier year. */
  predicate HasCakeday(m: Member, today: Date) {
    m.joinedAt.month == today.month && m.joinedAt.day == today.day && m.joinedAt.year < today.year
  }

  function Years(m: Member, today: Date): int {
    today.year - m.joinedAt.year
  }

  /** What the loop appends, in guild order: one entry per member with a cakeday. */
  function Matches(members: seq<Member>, today: Date): (r: seq<Anniversary>)
    ensures |r| <= |members|
  {
    if members == [] then []
    else
      var last := members[|members| - 1];
      Matches(members[..|members| - 1], today) +
        (if HasCakeday(last, today) then [Anniversary(last, Years(last, today))] else [])
  }

  /** Only members with a cakeday today are listed, each with its years. */
  lemma {:induction false} MatchesAreCakedays(members: seq<Member>, today: Date)
    ensures forall k :: 0 <= k < |Matches(members, today)| ==>
      var a := Matches(members, today)[k];
      HasCakeday(a.member, today) && a.years == Years(a.member, today)
  {
    if members != [] {
      MatchesAreCakedays(members[..|members| - 1], today);
    }
  }

  /** Every member with a cakeday is listed exactly as often as it occurs in the guild. */
  lemma {:induction false} MatchesCount(members: seq<Member>, today: Date, a: Anniversary)
    ensures multiset(Matches(members, today))[a] ==
      if HasCakeday(a.member, today) && a.years == Years(a.member, today)
      then multiset(members)[a.member] else 0
  {
    if members != [] {
      var init, last := members[..|members| - 1], members[|members| - 1];
      assert members == init + [last];
      MatchesCount(init, today, a);
    }
  }

  /** The two sort keys: the member (by name) and the years. */
  datatype SortKey = ByName | ByYears

  /** `key(a) <= key(b)` for the given key; names compare as Python strings do. */
  predicate KeyLe(k: SortKey, a: Anniversary, b: Anniversary) {
    match k
    case ByName => LexLe(a.member.name, b.member.name)
    case ByYears => a.years <= b.years
  }

  predicate SameKey(k: SortKey, a: Anniversary, b: Anniversary) {
    match k
    case ByName => a.member.name == b.member.name
    case ByYears => a.years == b.years
  }

  lemma KeyLeTotal(k: SortKey, a: Anniversary, b: Anniversary)
    ensures KeyLe(k, a, b) || KeyLe(k, b, a)
  {
    if k == ByName { LexLeTotal(a.member.name, b.member.name); }
  }

  lemma KeyLeTransitive(k: SortKey, a: Anniversary, b: Anniversary, c: Anniversary)
    requires KeyLe(k, a, b) && KeyLe(k, b, c)
    ensures KeyLe(k, a, c)
  {
    if k == ByName { LexLeTransitive(a.member.name, b.member.name, c.member.name); }
  }

  lemma SameKeyIsKeyLe(k: SortKey, a: Anniversary, b: Anniversary)
    requires SameKey(k, a, b)
    ensures KeyLe(k, a, b)
  {
    if k == ByName { LexLeReflexive(a.member.name); }
  }

  /**
   * Inserts `x` into `r` before the first element whose key is not smaller, so that `x`,
   * which came earlier in the input, stays ahead of elements with an equal key.
   */
  function Insert(k: SortKey, x: Anniversary, r: seq<Anniversary>): (res: seq<Anniversary>)
    ensures multiset(res) == multiset(r) + multiset{x}
    ensures |res| == |r| + 1
  {
    if r == [] then [x]
    else if KeyLe(k, x, r[0]) then [x] + r
    else
      var rest := Insert(k, x, r[1..]);
      assert r == [r[0]] + r[1..];
      [r[0]] + rest
  }

  /** `list.sort(key=...)`: a stable sort, written as an insertion sort. */
  function SortBy(k: SortKey, s: seq<Anniversary>): (r: seq<Anniversary>)
    ensures multiset(r) == multiset(s)
    ensures |r| == |s|
  {
    if s == [] then []
    else
      assert s == [s[0]] + s[1..];
      Insert(k, s[0], SortBy(k, s[1..]))
  }

  predicate Sorted(k: SortKey, s: seq<Anniversary>) {
    forall i, j :: 0 <= i < j < |s| ==> KeyLe(k, s[i], s[j])
  }

  lemma {:induction false} InsertSorted(k: SortKey, x: Anniversary, r: seq<Anniversary>)
    requires Sorted(k, r)
    ensures Sorted(k, Insert(k, x, r))
  {
    if r != [] {
      if KeyLe(k, x, r[0]) {
        forall j | 0 <= j < |r| ensures KeyLe(k, x, r[j]) {
          if j > 0 { KeyLeTransitive(k, x, r[0], r[j]); }
        }
        ConsSorted(k, x, r);
      } else {
        KeyLeTotal(k, x, r[0]);
        InsertSorted(k, x, r[1..]);
        InsertLowerBound(k, r[0], x, r[1..]);
        ConsSorted(k, r[0], Insert(k, x, r[1..]));
      }
    }
  }

  /** A sorted list stays sorted with an element in front that is no greater than any of it. */
  lemma ConsSorted(k: SortKey, a: Anniversary, t: seq<Anniversary>)
    requires Sorted(k, t) && forall j :: 0 <= j < |t| ==> KeyLe(k, a, t[j])
    ensures Sorted(k, [a] + t)
  {
    var s := [a] + t;
    forall i, j | 0 <= i < j < |s| ensures KeyLe(k, s[i], s[j]) {
      if i == 0 { assert s[j] == t[j - 1]; } else { assert s[i] == t[i - 1] && s[j] == t[j - 1]; }
    }
  }

  /** A lower bound of `x` and of every element of `r` bounds all of `Insert(k, x, r)`. */
  lemma InsertLowerBound(k: SortKey, b: Anniversary, x: Anniversary, r: seq<Anniversary>)
    requires KeyLe(k, b, x) && forall j :: 0 <= j < |r| ==> KeyLe(k, b, r[j])
    ensures forall j :: 0 <= j < |Insert(k, x, r)| ==> KeyLe(k, b, Insert(k, x, r)[j])
  {
    var res := Insert(k, x, r);
    forall j | 0 <= j < |res| ensures KeyLe(k, b, res[j]) {
      assert res[j] in multiset(res);
      if res[j] != x {
        assert res[j] in multiset(r);
        var i :| 0 <= i < |r| && r[i] == res[j];
      }
    }
  }

  /** The sort orders by its key. */
  lemma {:induction false} SortBySorted(k: SortKey, s: seq<Anniversary>)
    ensures Sorted(k, SortBy(k, s))
  {
    if s != [] {
      SortBySorted(k, s[1..]);
      InsertSorted(k, s[0], SortBy(k, s[1..]));
    }
  }

  /** The entries of `s` whose key equals that of `v`, in order. */
  function Group(k: SortKey, s: seq<Anniversary>, v: Anniversary): seq<Anniversary> {
    if s == [] then []
    else (if SameKey(k, s[0], v) then [s[0]] else []) + Group(k, s[1..], v)
  }

  lemma GroupSingleton(k: SortKey, a: Anniversary, v: Anniversary)
    ensures Group(k, [a], v) == if SameKey(k, a, v) then [a] else []
  {
    assert [a][1..] == [];
  }

  lemma {:induction false} GroupAppend(k: SortKey, s: seq<Anniversary>, t: seq<Anniversary>, v: Anniversary)
    ensures Group(k, s + t, v) == Group(k, s, v) + Group(k, t, v)
  {
    if s != [] {
      var h := if SameKey(k, s[0], v) then [s[0]] else [];
      assert (s + t)[0] == s[0];
      assert (s + t)[1..] == s[1..] + t;
      assert Group(k, s + t, v) == h + Group(k, s[1..] + t, v);
      GroupAppend(k, s[1..], t, v);
      assert Group(k, s, v) == h + Group(k, s[1..], v);
    } else {
      assert s + t == t;
    }
  }

  /** Two entries with different keys commute within any one key group. */
  lemma GroupSwap(k: SortKey, a: Anniversary, b: Anniversary, v: Anniversary)
    requires !KeyLe(k, a, b)
    ensures Group(k, [b], v) + Group(k, [a], v) == Group(k, [a], v) + Group(k, [b], v)
  {
    GroupSingleton(k, a, v);
    GroupSingleton(k, b, v);
    if SameKey(k, a, v) && SameKey(k, b, v) {
      assert SameKey(k, a, b);
      SameKeyIsKeyLe(k, a, b);
    }
  }

  /** One step of an insertion: `x` moves past `b`, whose key is smaller. */
  lemma InsertStep(k: SortKey, x: Anniversary, b: Anniversary, tail: seq<Anniversary>,
                   rest: seq<Anniversary>, v: Anniversary)
    requires !KeyLe(k, x, b)
    requires Group(k, rest, v) == Group(k, [x] + tail, v)
    ensures Group(k, [b] + rest, v) == Group(k, [x] + ([b] + tail), v)
  {
    GroupAppend(k, [b], rest, v);
    GroupAppend(k, [x], tail, v);
    GroupAppend(k, [b], tail, v);
    GroupAppend(k, [x], [b] + tail, v);
    GroupSwap(k, x, b, v);
    Rearrange(Group(k, [b] + rest, v), Group(k, [x] + ([b] + tail), v),
              Group(k, [x], v), Group(k, [b], v), Group(k, tail, v));
  }

  lemma Rearrange<T>(p: seq<T>, q: seq<T>, a: seq<T>, b: seq<T>, c: seq<T>)
    requires p == b + (a + c) && q == a + (b + c) && b + a == a + b
    ensures p == q
  {
    assert b + (a + c) == (b + a) + c;
  }

  lemma {:induction false} InsertStable(k: SortKey, x: Anniversary, r: seq<Anniversary>, v: Anniversary)
    ensures Group(k, Insert(k, x, r), v) == Group(k, [x] + r, v)
  {
    if r != [] && !KeyLe(k, x, r[0]) {
      var tail := r[1..];
      InsertStable(k, x, tail, v);
      InsertStep(k, x, r[0], tail, Insert(k, x, tail), v);
      assert r == [r[0]] + tail;
    }
  }

  /** The sort is stable: entries with equal keys keep their relative input order. */
  lemma {:induction false} SortByStable(k: SortKey, s: seq<Anniversary>, v: Anniversary)
    ensures Group(k, SortBy(k, s), v) == Group(k, s, v)
  {
    if s != [] {
      var t := SortBy(k, s[1..]);
      calc {
        Group(k, SortBy(k, s), v);
        Group(k, Insert(k, s[0], t), v);
        { InsertStable(k, s[0], t, v); }
        Group(k, [s[0]] + t, v);
        { GroupAppend(k, [s[0]], t, v); }
        Group(k, [s[0]], v) + Group(k, t, v);
        { SortByStable(k, s[1..], v); }
        Group(k, [s[0]], v) + Group(k, s[1..], v);
        { GroupAppend(k, [s[0]], s[1..], v); }
        Group(k, [s[0]] + s[1..], v);
        { assert s == [s[0]] + s[1..]; }
        Group(k, s, v);
      }
    }
  }

  /** Order by years, then by name. */
  predicate RosterLe(a: Anniversary, b: Anniversary) {
    a.years < b.years || (a.years == b.years && LexLe(a.member.name, b.member.name))
  }

  predicate RosterOrdered(s: seq<Anniversary>) {
    forall i, j :: 0 <= i < j < |s| ==> RosterLe(s[i], s[j])
  }

  lemma {:induction false} InsertByYearsOrdered(x: Anniversary, r: seq<Anniversary>)
    requires RosterOrdered(r)
    requires forall k :: 0 <= k < |r| ==> LexLe(x.member.name, r[k].member.name)
    ensures RosterOrdered(Insert(ByYears, x, r))
  {
    if r != [] && !KeyLe(ByYears, x, r[0]) {
      InsertByYearsOrdered(x, r[1..]);
      var rest := Insert(ByYears, x, r[1..]);
      forall j | 0 <= j < |rest| ensures RosterLe(r[0], rest[j]) {
        assert rest[j] in multiset(rest);
        assert rest[j] == x || rest[j] in r[1..];
      }
    }
  }

  /** Sorting a name-ordered list stably by years orders it by years, then name. */
  lemma {:induction false} YearsAfterNameOrdered(s: seq<Anniversary>)
    requires Sorted(ByName, s)
    ensures RosterOrdered(SortBy(ByYears, s))
  {
    if s != [] {
      YearsAfterNameOrdered(s[1..]);
      var t := SortBy(ByYears, s[1..]);
      forall k | 0 <= k < |t| ensures LexLe(s[0].member.name, t[k].member.name) {
        assert t[k] in multiset(s[1..]);
        var j :| 0 <= j < |s[1..]| && s[1..][j] == t[k];
      }
      InsertByYearsOrdered(s[0], t);
    }
  }

  /** The result of `get_members`: the matches sorted by name, then (stably) by years. */
  function Roster(members: seq<Member>, today: Date): seq<Anniversary> {
    SortBy(ByYears, SortBy(ByName, Matches(members, today)))
  }

  /** The roster is ordered by years and then by name. */
  lemma RosterIsOrdered(members: seq<Member>, today: Date)
    ensures RosterOrdered(Roster(members, today))
  {
    SortBySorted(ByName, Matches(members, today));
    YearsAfterNameOrdered(SortBy(ByName, Matches(members, today)));
  }

  /** The roster holds exactly the members with a cakeday, as often as they are in the guild. */
  lemma RosterContents(members: seq<Member>, today: Date)
    ensures forall k :: 0 <= k < |Roster(members, today)| ==>
      var a := Roster(members, today)[k];
      HasCakeday(a.member, today) && a.years == Years(a.member, today)
    ensures forall m :: multiset(Roster(members, today))[Anniversary(m, Years(m, today))] ==
                        (if HasCakeday(m, today) then multiset(members)[m] else 0)
  {
    var r, s := Roster(members, today), Matches(members, today);
    assert multiset(r) == multiset(s);
    MatchesAreCakedays(members, today);
    forall k | 0 <= k < |r|
      ensures HasCakeday(r[k].member, today) && r[k].years == Years(r[k].member, today)
    {
      assert r[k] in multiset(s);
      var j :| 0 <= j < |s| && s[j] == r[k];
    }
    forall m ensures multiset(r)[Anniversary(m, Years(m, today))] ==
      if HasCakeday(m, today) then multiset(members)[m] else 0
    {
      MatchesCount(members, today, Anniversary(m, Years(m, today)));
    }
  }

  /** An empty guild, or one where nobody has a cakeday today, gives an empty roster. */
  lemma RosterEmpty(members: seq<Member>, today: Date)
    ensures Roster(members, today) == [] <==> forall k :: 0 <= k < |members| ==> !HasCakeday(members[k], today)
  {
    var r := Roster(members, today);
    RosterContents(members, today);
    if r != [] {
      var m := r[0].member;
      assert r[0] == Anniversary(m, Years(m, today));
      assert r[0] in multiset(r);
      assert m in multiset(members);
    } else {
      forall k | 0 <= k < |members| ensures !HasCakeday(members[k], today) {
        var m := members[k];
        assert m in multiset(members);
        assert multiset(r)[Anniversary(m, Years(m, today))] == 0;
      }
    }
  }

  /**
   * `get_members(guild, today)`: loops over the guild's members collecting every member
   * with a cakeday today and its years, then sorts by name and then by years.
   */
  method GetMembers(members: seq<Member>, today: Date) returns (r: seq<Anniversary>)
    ensures r == Roster(members, today)
    ensures forall k :: 0 <= k < |r| ==>
      HasCakeday(r[k].member, today) && r[k].years == today.year - r[k].member.joinedAt.year >= 1
    ensures forall m :: multiset(r)[Anniversary(m, Years(m, today))] ==
                        (if HasCakeday(m, today) then multiset(members)[m] else 0)
    ensures RosterOrdered(r)
    ensures r == [] <==> forall k :: 0 <= k < |members| ==> !HasCakeday(members[k], today)
  {
    var found: seq<Anniversary> := [];
    for i := 0 to |members|
      invariant found == Matches(members[..i], today)
    {
      var member := members[i];
      assert members[..i + 1] == members[..i] + [member];
      if HasCakeday(member, today) {
        found := found + [Anniversary(member, today.year - member.joinedAt.year)];
      }
    }
    assert members[..|members|] == members;
    found := SortBy(ByName, found);
    found := SortBy(ByYears, found);
    r := found;
    RosterIsOrdered(members, today);
    RosterContents(members, today);
    RosterEmpty(members, today);
  }
}
