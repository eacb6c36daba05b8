/** components/conversation-sidebar.tsx: which conversations the sidebar
    lists and under which date heading.

    Dates are integer millisecond timestamps. Reading the `updatedAt` text
    as a date and the local calendar day of a timestamp are parameters
    (`DateContext`): a text that is not a date reads as `None`, as an
    invalid `Date` does. */
module Sidebar {
  import opened Optional
  import opened Text
  import Conversations

  datatype Conversation = Conversation(id: string, title: string, model: string, createdAt: string, updatedAt: string)

  // ---------------------------------------------------------------------
  // Filtering by title

  predicate TitleMatches(c: Conversation, query: string) {
    Contains(Lower(c.title), Lower(query))
  }

  /** `filteredConversations`: the conversations whose lower-cased title
      contains the lower-cased query, in list order. */
  function Filtered(convs: seq<Conversation>, query: string): seq<Conversation>
    decreases |convs|
  {
    if convs == [] then []
    else
      var last := convs[|convs| - 1];
      Filtered(convs[..|convs| - 1], query) + if TitleMatches(last, query) then [last] else []
  }

  /** The filter keeps exactly the matching conversations, and no more
      entries than the list has. */
  lemma {:induction false} FilteredExact(convs: seq<Conversation>, query: string)
    ensures forall c :: c in Filtered(convs, query) <==> c in convs && TitleMatches(c, query)
    ensures |Filtered(convs, query)| <= |convs|
    decreases |convs|
  {
    if convs != [] {
      var init, last := convs[..|convs| - 1], convs[|convs| - 1];
      FilteredExact(init, query);
      assert convs == init + [last];
    }
  }

  /** Filtering keeps list order: the filter of a concatenation is the
      concatenation of the filters. */
  lemma {:induction false} FilteredAppend(a: seq<Conversation>, b: seq<Conversation>, query: string)
    ensures Filtered(a + b, query) == Filtered(a, query) + Filtered(b, query)
    decreases |b|
  {
    if b == [] {
      assert a + b == a;
    } else {
      var init, last := b[..|b| - 1], b[|b| - 1];
      var tail := if TitleMatches(last, query) then [last] else [];
      InitOfAppend(a, b);
      assert Filtered(a + b, query) == Filtered(a + init, query) + tail;
      FilteredAppend(a, init, query);
      assert Filtered(b, query) == Filtered(init, query) + tail;
    }
  }

  lemma ContainsEmpty(s: string)
    ensures Contains(s, "")
  {
    ContainsAt(s, "", 0);
  }

  /** An empty query keeps every conversation. */
  lemma {:induction false} EmptyQueryKeepsAll(convs: seq<Conversation>)
    ensures Filtered(convs, "") == convs
    decreases |convs|
  {
    if convs != [] {
      var init, last := convs[..|convs| - 1], convs[|convs| - 1];
      EmptyQueryKeepsAll(init);
      ContainsEmpty(Lower(last.title));
      assert Lower("") == "";
      assert TitleMatches(last, "");
      assert Filtered(convs, "") == Filtered(init, "") + [last];
      assert convs == init + [last];
    }
  }

  /** A title containing the query as typed is kept, whatever the case. */
  lemma ExactMatchIsKept(c: Conversation, query: string)
    requires Contains(c.title, query)
    ensures TitleMatches(c, query)
  {
    var i := ContainsWitness(c.title, query);
    var t := Lower(c.title);
    var q := Lower(query);
    assert t[i..i + |q|] == q by {
      forall k | 0 <= k < |q| ensures t[i..i + |q|][k] == q[k] {
        assert c.title[i..i + |query|][k] == query[k];
      }
    }
    ContainsAt(t, q, i);
  }

  // ---------------------------------------------------------------------
  // The displayed list

  /** A search result shown as a conversation: the title is
      "Search Result: " and the first 50 characters of the first match,
      then "..."; without a match the missing content reads "undefined".
      Each date is the first match's timestamp, or, when it is missing or
      empty, its own reading of the clock (`createdNow`, `updatedNow`). */
  function SearchResultEntry(hit: Conversations.ConversationHit, createdNow: string, updatedNow: string)
    : (c: Conversation)
    ensures c.id == hit.conversationId && c.model == "Search Result"
    ensures hit.matches != [] ==> c.title == "Search Result: " + Take(hit.matches[0].content, 50) + "..."
    ensures hit.matches == [] ==> c.title == "Search Result: undefined..."
    ensures hit.matches != [] && hit.matches[0].timestamp != "" ==>
              c.createdAt == hit.matches[0].timestamp && c.updatedAt == hit.matches[0].timestamp
    ensures hit.matches == [] || hit.matches[0].timestamp == "" ==>
              c.createdAt == createdNow && c.updatedAt == updatedNow
  {
    var snippet := if hit.matches != [] then Take(hit.matches[0].content, 50) else "undefined";
    var stamped := hit.matches != [] && hit.matches[0].timestamp != "";
    Conversation(hit.conversationId, "Search Result: " + snippet + "...", "Search Result",
                 if stamped then hit.matches[0].timestamp else createdNow,
                 if stamped then hit.matches[0].timestamp else updatedNow)
  }

  /** The search results as conversations. `clock(2 * i)` and
      `clock(2 * i + 1)` are the two readings of the current time the i-th
      entry may take; nothing relates one reading to another. */
  function SearchResultEntries(hits: seq<Conversations.ConversationHit>, clock: nat -> string)
    : (r: seq<Conversation>)
    ensures |r| == |hits|
    ensures forall i :: 0 <= i < |hits| ==> r[i] == SearchResultEntry(hits[i], clock(2 * i), clock(2 * i + 1))
  {
    seq(|hits|, i requires 0 <= i < |hits| => SearchResultEntry(hits[i], clock(2 * i), clock(2 * i + 1)))
  }

  /** `displayConversations`: the search results when the trimmed query is
      non-empty and there are results, the title filter otherwise. */
  function DisplayConversations(convs: seq<Conversation>, query: string,
                                results: seq<Conversations.ConversationHit>, clock: nat -> string)
    : (r: seq<Conversation>)
    ensures Trim(query) != "" && results != [] ==> r == SearchResultEntries(results, clock)
    ensures Trim(query) == "" || results == [] ==> r == Filtered(convs, query)
  {
    if Trim(query) != "" && |results| > 0 then SearchResultEntries(results, clock)
    else Filtered(convs, query)
  }

  /** With a query of white space only the search results are never shown,
      and the title filter still applies to the query as typed. */
  lemma BlankQueryShowsFilter(convs: seq<Conversation>, query: string,
                              results: seq<Conversations.ConversationHit>, clock: nat -> string)
    requires IsBlank(query)
    ensures DisplayConversations(convs, query, results, clock) == Filtered(convs, query)
  {
    TrimEmptyIffBlank(query);
  }

  /** Each search result is one displayed entry, under its conversation's
      id, in the order of the results. */
  lemma ResultsShownInOrder(convs: seq<Conversation>, query: string,
                            results: seq<Conversations.ConversationHit>, clock: nat -> string)
    requires !IsBlank(query) && results != []
    ensures var r := DisplayConversations(convs, query, results, clock);
            |r| == |results| && forall i :: 0 <= i < |r| ==> r[i].id == results[i].conversationId
  {
    TrimEmptyIffBlank(query);
  }

  // ---------------------------------------------------------------------
  // Date groups

  datatype DateGroup = Today | Yesterday | ThisWeek | Older

  /** The heading of a group. */
  function GroupName(g: DateGroup): string {
    match g
    case Today => "Today"
    case Yesterday => "Yesterday"
    case ThisWeek => "This Week"
    case Older => "Older"
  }

  lemma GroupNameInjective(g: DateGroup, h: DateGroup)
    requires GroupName(g) == GroupName(h)
    ensures g == h
  {
  }

  const DayMillis: int := 86_400_000

  /** The moment of the grouping (`new Date()`), how a text reads as a
      date, and the local calendar day number of a timestamp. */
  datatype DateContext = DateContext(now: int, parse: string -> Option<int>, dayOf: int -> int)

  /** The group of a conversation, tried in order: the same calendar day as
      now, the day before, later than seven days before now, otherwise
      older. A date that does not read is never on a day and never later
      than anything, so it is older. */
  function Classify(c: Conversation, ctx: DateContext): DateGroup {
    match ctx.parse(c.updatedAt)
    case None => Older
    case Some(t) =>
      var day := ctx.dayOf(t);
      var today := ctx.dayOf(ctx.now);
      if day == today then Today
      else if day == today - 1 then Yesterday
      else if t > ctx.now - 7 * DayMillis then ThisWeek
      else Older
  }

  /** Which dates land under which heading. */
  lemma ClassifyCases(c: Conversation, ctx: DateContext)
    ensures var t := ctx.parse(c.updatedAt);
            Classify(c, ctx) == Today <==> t.Some? && ctx.dayOf(t.value) == ctx.dayOf(ctx.now)
    ensures var t := ctx.parse(c.updatedAt);
            Classify(c, ctx) == Yesterday <==> t.Some? && ctx.dayOf(t.value) == ctx.dayOf(ctx.now) - 1
    ensures var t := ctx.parse(c.updatedAt);
            Classify(c, ctx) == ThisWeek <==>
              t.Some? && ctx.dayOf(t.value) != ctx.dayOf(ctx.now) && ctx.dayOf(t.value) != ctx.dayOf(ctx.now) - 1
              && t.value > ctx.now - 7 * DayMillis
    ensures ctx.parse(c.updatedAt).None? ==> Classify(c, ctx) == Older
  {
  }

  function Rank(g: DateGroup): nat {
    match g
    case Today => 0
    case Yesterday => 1
    case ThisWeek => 2
    case Older => 3
  }

  ghost predicate MonotoneDays(ctx: DateContext) {
    forall a, b :: a <= b ==> ctx.dayOf(a) <= ctx.dayOf(b)
  }

  /** When calendar days never run backwards, a conversation updated no
      later than another one, neither of them in the future, is never
      under a more recent heading. */
  lemma EarlierIsNeverMoreRecent(c: Conversation, d: Conversation, ctx: DateContext)
    requires MonotoneDays(ctx)
    requires ctx.parse(c.updatedAt).Some? && ctx.parse(d.updatedAt).Some?
    requires ctx.parse(c.updatedAt).value <= ctx.parse(d.updatedAt).value <= ctx.now
    ensures Rank(Classify(c, ctx)) >= Rank(Classify(d, ctx))
  {
    var tc := ctx.parse(c.updatedAt).value;
    var td := ctx.parse(d.updatedAt).value;
    assert ctx.dayOf(tc) <= ctx.dayOf(td) <= ctx.dayOf(ctx.now);
  }

  /** A date on a later day than today is "This Week": it is neither today
      nor yesterday, and the week test only asks for "later than seven days
      ago". */
  lemma FutureIsThisWeek(c: Conversation, ctx: DateContext)
    requires ctx.parse(c.updatedAt).Some? && ctx.parse(c.updatedAt).value > ctx.now
    requires ctx.dayOf(ctx.parse(c.updatedAt).value) > ctx.dayOf(ctx.now)
    ensures Classify(c, ctx) == ThisWeek
  {
  }

  /** The headings in the order they were first needed (the insertion order
      of the `groups` object, which is the order its entries are listed). */
  function GroupKeys(convs: seq<Conversation>, ctx: DateContext): seq<DateGroup>
    decreases |convs|
  {
    if convs == [] then []
    else
      var keys := GroupKeys(convs[..|convs| - 1], ctx);
      var g := Classify(convs[|convs| - 1], ctx);
      if g in keys then keys else keys + [g]
  }

  /** The conversations of group `g`, in list order. */
  function Members(convs: seq<Conversation>, g: DateGroup, ctx: DateContext): seq<Conversation>
    decreases |convs|
  {
    if convs == [] then []
    else
      var last := convs[|convs| - 1];
      Members(convs[..|convs| - 1], g, ctx) + if Classify(last, ctx) == g then [last] else []
  }

  function Names(keys: seq<DateGroup>): (r: seq<string>)
    ensures |r| == |keys|
    ensures forall i :: 0 <= i < |keys| ==> r[i] == GroupName(keys[i])
  {
    seq(|keys|, i requires 0 <= i < |keys| => GroupName(keys[i]))
  }

  /** A group is listed exactly when it has a member, and only once. */
  lemma {:induction false} GroupKeysExact(convs: seq<Conversation>, ctx: DateContext)
    ensures forall g :: g in GroupKeys(convs, ctx) <==> Members(convs, g, ctx) != []
    ensures forall a, b :: 0 <= a < b < |GroupKeys(convs, ctx)| ==> GroupKeys(convs, ctx)[a] != GroupKeys(convs, ctx)[b]
    decreases |convs|
  {
    if convs != [] {
      var init := convs[..|convs| - 1];
      GroupKeysExact(init, ctx);
      var before := GroupKeys(init, ctx);
      var keys := GroupKeys(convs, ctx);
      var g := Classify(convs[|convs| - 1], ctx);
      if g !in before {
        assert keys == before + [g];
        forall a, b | 0 <= a < b < |keys| ensures keys[a] != keys[b] {
          assert keys[a] == before[a];
          if b < |before| {
            assert keys[b] == before[b];
          }
        }
      }
    }
  }

  /** Every member of a group belongs to it. */
  lemma {:induction false} MembersBelong(convs: seq<Conversation>, g: DateGroup, ctx: DateContext)
    ensures forall c :: c in Members(convs, g, ctx) <==> c in convs && Classify(c, ctx) == g
    decreases |convs|
  {
    if convs != [] {
      var init := convs[..|convs| - 1];
      MembersBelong(init, g, ctx);
      assert convs == init + [convs[|convs| - 1]];
    }
  }

  /** Members keep list order: the members of a concatenation are the
      members of the first part followed by those of the second. */
  lemma {:induction false} MembersAppend(a: seq<Conversation>, b: seq<Conversation>, g: DateGroup, ctx: DateContext)
    ensures Members(a + b, g, ctx) == Members(a, g, ctx) + Members(b, g, ctx)
    decreases |b|
  {
    if b == [] {
      assert a + b == a;
    } else {
      assert (a + b)[..|a + b| - 1] == a + b[..|b| - 1];
      MembersAppend(a, b[..|b| - 1], g, ctx);
    }
  }

  /** The groups partition the list: together they hold every conversation
      exactly as often as the list does. */
  lemma {:induction false} GroupsPartition(convs: seq<Conversation>, ctx: DateContext)
    ensures multiset(convs) ==
              multiset(Members(convs, Today, ctx)) + multiset(Members(convs, Yesterday, ctx))
              + multiset(Members(convs, ThisWeek, ctx)) + multiset(Members(convs, Older, ctx))
    decreases |convs|
  {
    if convs != [] {
      var init, last := convs[..|convs| - 1], convs[|convs| - 1];
      GroupsPartition(init, ctx);
      MultisetSnoc(convs);
      var t, y, w, o := MembersLast(convs, Today, ctx), MembersLast(convs, Yesterday, ctx),
                        MembersLast(convs, ThisWeek, ctx), MembersLast(convs, Older, ctx);
      MembersStep(convs, Today, ctx);
      MembersStep(convs, Yesterday, ctx);
      MembersStep(convs, ThisWeek, ctx);
      MembersStep(convs, Older, ctx);
      LastInOneGroup(convs, ctx);
      Regroup(multiset(Members(init, Today, ctx)), multiset(Members(init, Yesterday, ctx)),
              multiset(Members(init, ThisWeek, ctx)), multiset(Members(init, Older, ctx)), t, y, w, o);
    }
  }

  lemma MultisetSnoc(convs: seq<Conversation>)
    requires convs != []
    ensures multiset(convs) == multiset(convs[..|convs| - 1]) + multiset{convs[|convs| - 1]}
  {
    assert convs == convs[..|convs| - 1] + [convs[|convs| - 1]];
  }

  /** The last conversation goes to exactly one group. */
  lemma LastInOneGroup(convs: seq<Conversation>, ctx: DateContext)
    requires convs != []
    ensures MembersLast(convs, Today, ctx) + MembersLast(convs, Yesterday, ctx)
            + MembersLast(convs, ThisWeek, ctx) + MembersLast(convs, Older, ctx) == multiset{convs[|convs| - 1]}
  {
    var last := convs[|convs| - 1];
    match Classify(last, ctx)
    case Today =>
    case Yesterday =>
    case ThisWeek =>
    case Older =>
  }

  lemma Regroup<T>(a: multiset<T>, b: multiset<T>, c: multiset<T>, d: multiset<T>,
                   e: multiset<T>, f: multiset<T>, g: multiset<T>, h: multiset<T>)
    ensures (a + e) + (b + f) + (c + g) + (d + h) == (a + b + c + d) + (e + f + g + h)
  {
  }

  /** What the last conversation adds to group `g`. */
  function MembersLast(convs: seq<Conversation>, g: DateGroup, ctx: DateContext): multiset<Conversation>
    requires convs != []
  {
    var last := convs[|convs| - 1];
    if Classify(last, ctx) == g then multiset{last} else multiset{}
  }

  lemma MembersStep(convs: seq<Conversation>, g: DateGroup, ctx: DateContext)
    requires convs != []
    ensures multiset(Members(convs, g, ctx)) == multiset(Members(convs[..|convs| - 1], g, ctx)) + MembersLast(convs, g, ctx)
  {
  }

  /** The set of headings of a list of groups. */
  function Headings(keys: seq<DateGroup>): set<string> {
    set g | g in keys :: GroupName(g)
  }

  lemma HeadingsAppend(keys: seq<DateGroup>, g: DateGroup)
    ensures Headings(keys + [g]) == Headings(keys) + {GroupName(g)}
  {
  }

  lemma NamesAppend(keys: seq<DateGroup>, g: DateGroup)
    ensures Names(keys + [g]) == Names(keys) + [GroupName(g)]
  {
  }

  /** Appending one conversation: its group gains it at the end, and its
      heading is added when it is new. */
  lemma GroupStep(s: seq<Conversation>, c: Conversation, ctx: DateContext)
    ensures GroupKeys(s + [c], ctx) == if Classify(c, ctx) in GroupKeys(s, ctx) then GroupKeys(s, ctx) else GroupKeys(s, ctx) + [Classify(c, ctx)]
    ensures forall h :: Members(s + [c], h, ctx) == Members(s, h, ctx) + if Classify(c, ctx) == h then [c] else []
  {
    assert (s + [c])[..|s|] == s;
  }

  /** `groups` holds, under each heading of `keys`, the members of that
      group in `s`, and nothing else. */
  ghost predicate Tracks(groups: map<string, seq<Conversation>>, keys: seq<DateGroup>,
                         s: seq<Conversation>, ctx: DateContext) {
    && keys == GroupKeys(s, ctx)
    && groups.Keys == Headings(keys)
    && (forall g :: g in keys ==> groups[GroupName(g)] == Members(s, g, ctx))
  }

  /** `groups[group].push(conv)`, creating the list when it is missing. */
  function Push(groups: map<string, seq<Conversation>>, name: string, c: Conversation): map<string, seq<Conversation>> {
    if name in groups then groups[name := groups[name] + [c]] else groups[name := [c]]
  }

  /** A heading is present exactly when its group is among `keys`. */
  lemma HeadingPresent(groups: map<string, seq<Conversation>>, keys: seq<DateGroup>, g: DateGroup)
    requires groups.Keys == Headings(keys)
    ensures GroupName(g) in groups <==> g in keys
  {
    if GroupName(g) in groups {
      var h :| h in keys && GroupName(h) == GroupName(g);
      GroupNameInjective(h, g);
    }
  }

  lemma PushTracks(groups: map<string, seq<Conversation>>, keys: seq<DateGroup>,
                   s: seq<Conversation>, c: Conversation, ctx: DateContext)
    requires Tracks(groups, keys, s, ctx)
    ensures GroupName(Classify(c, ctx)) in groups <==> Classify(c, ctx) in keys
    ensures Tracks(Push(groups, GroupName(Classify(c, ctx)), c),
                   if Classify(c, ctx) in keys then keys else keys + [Classify(c, ctx)], s + [c], ctx)
  {
    var g := Classify(c, ctx);
    var name := GroupName(g);
    var keys' := if g in keys then keys else keys + [g];
    var groups' := Push(groups, name, c);
    HeadingPresent(groups, keys, g);
    GroupStep(s, c, ctx);
    assert groups'.Keys == Headings(keys') by {
      HeadingsAppend(keys, g);
    }
    forall h | h in keys' ensures groups'[GroupName(h)] == Members(s + [c], h, ctx) {
      if h == g {
        if g !in keys {
          GroupKeysExact(s, ctx);
        }
      } else if GroupName(h) == name {
        GroupNameInjective(h, g);
      }
    }
  }

  lemma TracksHeadings(groups: map<string, seq<Conversation>>, keys: seq<DateGroup>,
                       s: seq<Conversation>, ctx: DateContext)
    requires Tracks(groups, keys, s, ctx)
    ensures forall g :: GroupName(g) in groups <==> g in keys
  {
    forall g ensures GroupName(g) in groups <==> g in keys {
      HeadingPresent(groups, keys, g);
    }
  }

  /** `groupConversationsByDate`: one pass over the list, pushing each
      conversation onto the list of its heading, created on first use. The
      headings come back in the order they were created. */
  method GroupConversationsByDate(convs: seq<Conversation>, ctx: DateContext)
    returns (groups: map<string, seq<Conversation>>, order: seq<string>)
    ensures order == Names(GroupKeys(convs, ctx))
    ensures groups.Keys == Headings(GroupKeys(convs, ctx))
    ensures forall g :: GroupName(g) in groups <==> g in GroupKeys(convs, ctx)
    ensures forall g :: GroupName(g) in groups ==> groups[GroupName(g)] == Members(convs, g, ctx)
  {
    groups := map[];
    order := [];
    ghost var keys: seq<DateGroup> := [];
    var i := 0;
    assert convs[..0] == [];
    while i < |convs|
      invariant 0 <= i <= |convs|
      invariant Tracks(groups, keys, convs[..i], ctx)
      invariant order == Names(keys)
    {
      var c := convs[i];
      var name := GroupName(Classify(c, ctx));
      assert convs[..i + 1] == convs[..i] + [c];
      PushTracks(groups, keys, convs[..i], c, ctx);
      ghost var next := Push(groups, name, c);
      ghost var nextKeys := if Classify(c, ctx) in keys then keys else keys + [Classify(c, ctx)];
      if name !in groups {
        NamesAppend(keys, Classify(c, ctx));
        groups := groups[name := [c]];
        order := order + [name];
        keys := keys + [Classify(c, ctx)];
      } else {
        groups := groups[name := groups[name] + [c]];
      }
      assert groups == next && keys == nextKeys;
      i := i + 1;
    }
    assert convs[..|convs|] == convs;
    TracksHeadings(groups, keys, convs, ctx);
  }

  /** Every heading present has at least one conversation under it. */
  lemma NoEmptyGroups(convs: seq<Conversation>, ctx: DateContext)
    ensures forall g :: g in GroupKeys(convs, ctx) ==> Members(convs, g, ctx) != []
  {
    GroupKeysExact(convs, ctx);
  }
}
