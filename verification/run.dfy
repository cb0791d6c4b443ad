/**
 * `start_parsing` and `button_callback`: a run collects each requested group's
 * records in order under the user's criteria, writes the records and the run's
 * statistics only when something was collected, and reports the counts.
 */
module Run {
  import opened Criteria
  import opened Telegram
  import opened Sheets
  import opened Commands

  /** All records of a run: each group's records, the groups taken in order. A limit of zero or less gathers nothing. */
  function Gathered(client: Client, c: Criteria, groups: seq<string>): (r: seq<Contact>)
    ensures c.maxContacts <= 0 ==> r == []
  {
    if groups == [] then []
    else GroupContacts(client, groups[0], c) + Gathered(client, c, groups[1..])
  }

  lemma {:induction false} GatheredAppend(client: Client, c: Criteria, groups: seq<string>, g: string)
    ensures Gathered(client, c, groups + [g]) == Gathered(client, c, groups) + GroupContacts(client, g, c)
  {
    if groups == [] {
      assert groups + [g] == [g];
    } else {
      assert (groups + [g])[0] == groups[0] && (groups + [g])[1..] == groups[1..] + [g];
      GatheredAppend(client, c, groups[1..], g);
    }
  }

  /** The sum of a list of counts. */
  function Sum(ns: seq<nat>): nat {
    if ns == [] then 0 else Sum(ns[..|ns| - 1]) + ns[|ns| - 1]
  }

  lemma SumAppend(ns: seq<nat>, n: nat)
    ensures Sum(ns + [n]) == Sum(ns) + n
  {
    assert (ns + [n])[..|ns|] == ns;
  }

  /** Every record is labelled with one of `groups` and has the shape `parse_group` builds for that label (bot.py:189-196). */
  predicate Labelled(all: seq<Contact>, groups: seq<string>, c: Criteria) {
    forall i :: 0 <= i < |all| ==> all[i].group in groups && WellFormed(all[i], all[i].group, c)
  }

  /** Every record of a run carries one of the requested groups as its label and has the shape `parse_group` builds (bot.py:189-196). */
  lemma {:induction false} GatheredLabels(client: Client, c: Criteria, groups: seq<string>)
    ensures Labelled(Gathered(client, c, groups), groups, c)
  {
    if groups != [] {
      var first := GroupContacts(client, groups[0], c);
      var rest := Gathered(client, c, groups[1..]);
      GroupContactsSpec(client, groups[0], c);
      GatheredLabels(client, c, groups[1..]);
      var all := first + rest;
      assert Gathered(client, c, groups) == all;
      forall i | 0 <= i < |all| ensures all[i].group in groups && WellFormed(all[i], all[i].group, c) {
        if i < |first| {
          assert all[i] == first[i];
        } else {
          assert all[i] == rest[i - |first|];
          assert forall g :: g in groups[1..] ==> g in groups;
        }
      }
    }
  }

  /** Each group contributes at most `max_contacts` records. */
  lemma {:induction false} GatheredBound(client: Client, c: Criteria, groups: seq<string>)
    requires c.maxContacts >= 0
    ensures |Gathered(client, c, groups)| <= |groups| * c.maxContacts
  {
    if groups != [] {
      GatheredBound(client, c, groups[1..]);
      assert |groups| * c.maxContacts == c.maxContacts + (|groups| - 1) * c.maxContacts;
    }
  }

  /**
   * Every record of a run carries one of the requested groups as its label and has
   * the shape `parse_group` builds (bot.py:189-196), and each group contributes at most `max_contacts` records.
   */
  lemma GatheredSpec(client: Client, c: Criteria, groups: seq<string>)
    ensures var all := Gathered(client, c, groups);
      && (forall i :: 0 <= i < |all| ==> all[i].group in groups && WellFormed(all[i], all[i].group, c))
      && (c.maxContacts >= 0 ==> |all| <= |groups| * c.maxContacts)
      && (c.maxContacts < 0 ==> all == [])
  {
    GatheredLabels(client, c, groups);
    if c.maxContacts >= 0 {
      GatheredBound(client, c, groups);
    }
  }

  /** With every stored limit on the 50..200 cycle, a run holds at most 200 records per group. */
  lemma GatheredOnCycleBound(client: Client, c: Criteria, groups: seq<string>)
    requires OnCycle(c.maxContacts)
    ensures |Gathered(client, c, groups)| <= MaxCeiling * |groups|
  {
    GatheredBound(client, c, groups);
    assert |groups| * c.maxContacts <= |groups| * MaxCeiling;
  }

  /** `sum(1 for c in contacts if c.get('username'))`. */
  function CountUsernames(cs: seq<Contact>): (n: nat)
    ensures n <= |cs|
  {
    if cs == [] then 0 else (if cs[0].username != "" then 1 else 0) + CountUsernames(cs[1..])
  }

  /** `sum(1 for c in contacts if c.get('phone'))`. */
  function CountPhones(cs: seq<Contact>): (n: nat)
    ensures n <= |cs|
  {
    if cs == [] then 0 else (if cs[0].phone != "" then 1 else 0) + CountPhones(cs[1..])
  }

  /** The counts of the concatenated records are the sums of the counts of the parts. */
  lemma {:induction false} CountsAppend(a: seq<Contact>, b: seq<Contact>)
    ensures CountUsernames(a + b) == CountUsernames(a) + CountUsernames(b)
    ensures CountPhones(a + b) == CountPhones(a) + CountPhones(b)
  {
    if a == [] {
      assert a + b == b;
    } else {
      assert (a + b)[0] == a[0] && (a + b)[1..] == a[1..] + b;
      CountsAppend(a[1..], b);
    }
  }

  /** When every record has a username, the username count is the total. */
  lemma {:induction false} CountUsernamesAll(cs: seq<Contact>)
    requires forall i :: 0 <= i < |cs| ==> cs[i].username != ""
    ensures CountUsernames(cs) == |cs|
  {
    if cs != [] {
      CountUsernamesAll(cs[1..]);
    }
  }

  /** When no record has a username, the username count is zero. */
  lemma {:induction false} CountUsernamesNone(cs: seq<Contact>)
    requires forall i :: 0 <= i < |cs| ==> cs[i].username == ""
    ensures CountUsernames(cs) == 0
  {
    if cs != [] {
      CountUsernamesNone(cs[1..]);
    }
  }

  /** When every record has a phone, the phone count is the total. */
  lemma {:induction false} CountPhonesAll(cs: seq<Contact>)
    requires forall i :: 0 <= i < |cs| ==> cs[i].phone != ""
    ensures CountPhones(cs) == |cs|
  {
    if cs != [] {
      CountPhonesAll(cs[1..]);
    }
  }

  /** When no record has a phone, the phone count is zero. */
  lemma {:induction false} CountPhonesNone(cs: seq<Contact>)
    requires forall i :: 0 <= i < |cs| ==> cs[i].phone == ""
    ensures CountPhones(cs) == 0
  {
    if cs != [] {
      CountPhonesNone(cs[1..]);
    }
  }

  /** Under the "username" priority every record of a run counts as having a username. */
  lemma UsernamePriorityCountsAll(client: Client, c: Criteria, groups: seq<string>)
    requires c.priority == "username"
    ensures CountUsernames(Gathered(client, c, groups)) == |Gathered(client, c, groups)|
  {
    GatheredSpec(client, c, groups);
    CountUsernamesAll(Gathered(client, c, groups));
  }

  /** The statistics record of a run: its counters are consistent with the records. */
  function RunStats(groups: seq<string>, all: seq<Contact>, duration: int): (s: Stats)
    ensures s.groupsParsed == |groups| && s.totalContacts == |all|
    ensures s.withUsername == CountUsernames(all) && s.withPhone == CountPhones(all)
    ensures 0 <= s.withUsername <= s.totalContacts && 0 <= s.withPhone <= s.totalContacts
    ensures s.durationSec == duration && s.errors == 0
  {
    Stats(|groups|, |all|, CountUsernames(all), CountPhones(all), duration, 0)
  }

  /** One more group of the loop keeps the loop's invariant: the records gathered so far and their counts. */
  lemma CollectStep(client: Client, c: Criteria, groups: seq<string>, i: nat, all: seq<Contact>, counts: seq<nat>)
    requires i < |groups|
    requires all == Gathered(client, c, groups[..i]) && |all| == Sum(counts)
    requires CountsOf(client, c, groups[..i], counts)
    ensures all + GroupContacts(client, groups[i], c) == Gathered(client, c, groups[..i + 1])
    ensures |all + GroupContacts(client, groups[i], c)| == Sum(counts + [|GroupContacts(client, groups[i], c)|])
    ensures CountsOf(client, c, groups[..i + 1], counts + [|GroupContacts(client, groups[i], c)|])
  {
    assert groups[..i + 1] == groups[..i] + [groups[i]];
    GatheredAppend(client, c, groups[..i], groups[i]);
    SumAppend(counts, |GroupContacts(client, groups[i], c)|);
  }

  /** `counts` holds the number of records of each of `groups`, in order. */
  predicate CountsOf(client: Client, c: Criteria, groups: seq<string>, counts: seq<nat>) {
    && |counts| == |groups|
    && forall k :: 0 <= k < |groups| ==> counts[k] == |GroupContacts(client, groups[k], c)|
  }

  /**
   * The group loop of `start_parsing`: the records of each group appended in order,
   * with the count each group contributed.
   */
  method CollectAll(client: Client, c: Criteria, groups: seq<string>) returns (all: seq<Contact>, counts: seq<nat>)
    ensures all == Gathered(client, c, groups)
    ensures |counts| == |groups|
    ensures forall i :: 0 <= i < |groups| ==> counts[i] == |GroupContacts(client, groups[i], c)|
    ensures |all| == Sum(counts)
  {
    all, counts := [], [];
    for i := 0 to |groups|
      invariant all == Gathered(client, c, groups[..i])
      invariant CountsOf(client, c, groups[..i], counts)
      invariant |all| == Sum(counts)
    {
      var contacts := ParseGroup(client, groups[i], c.maxContacts, c.priority, c.excludeBots);
      CollectStep(client, c, groups, i, all, counts);
      all := all + contacts;
      counts := counts + [|contacts|];
    }
    assert groups[..|groups|] == groups;
  }

  /**
   * The spreadsheet writes of a run that gathered `all`: none for no records; otherwise
   * one append of a row per record to the contacts sheet, then the statistics row.
   */
  predicate RunWrites(writes: seq<SheetWrite>, groups: seq<string>, all: seq<Contact>, now: string, duration: int) {
    && (all == [] ==> writes == [])
    && (all != [] ==>
          && |writes| == 2
          && writes[0].AppendRows? && writes[0].sheet == SheetContacts && |writes[0].rows| == |all|
          && (forall i :: 0 <= i < |all| ==> writes[0].rows[i] == ContactRow(all[i], now))
          && writes[1] == AppendRow(SheetStats, StatsRow(RunStats(groups, all, duration), now)))
  }

  /** The summary `start_parsing` sends back. */
  datatype Report = ConnectionFailed | Done(groups: nat, contacts: nat, withUsername: nat, withPhone: nat)

  /**
   * `start_parsing`: fails before anything else when the client cannot connect;
   * otherwise looks up the user's criteria, collects every group, writes the
   * records and the statistics only when there are records, and reports the counts.
   */
  method StartParsing(store: CriteriaStore, client: Client, connected: bool, user: int, groups: seq<string>,
                      now: string, duration: int)
    returns (report: Report, writes: seq<SheetWrite>)
    modifies store
    ensures !connected ==> report == ConnectionFailed && writes == [] && store.userData == old(store.userData)
    ensures connected ==> store.userData == Touch(old(store.userData), user)
    ensures connected ==>
      var all := Gathered(client, store.userData[user], groups);
      && report == Done(|groups|, |all|, CountUsernames(all), CountPhones(all))
      && RunWrites(writes, groups, all, now, duration)
    ensures old(store.LimitsOnCycle()) ==> store.LimitsOnCycle()
    ensures connected && old(store.LimitsOnCycle()) ==>
      |Gathered(client, store.userData[user], groups)| <= MaxCeiling * |groups|
  {
    if !connected {
      return ConnectionFailed, [];
    }
    var criteria := store.GetUserCriteria(user);
    if old(store.LimitsOnCycle()) {
      GatheredOnCycleBound(client, criteria, groups);
    }
    var all, counts := CollectAll(client, criteria, groups);
    writes := [];
    if all != [] {
      var contactWrites := WriteContacts(all, now);
      var stats := Stats(|groups|, |all|, CountUsernames(all), CountPhones(all), duration, 0);
      writes := contactWrites + [AppendRow(SheetStats, StatsRow(stats, now))];
    }
    report := Done(|groups|, |all|, CountUsernames(all), CountPhones(all));
  }

  /** What a button press produces. */
  datatype ButtonReply = RunFinished(report: Report, writes: seq<SheetWrite>) | CriteriaShown(criteria: Criteria) | Ignored

  /**
   * `button_callback`: the run button starts a run on the decoded groups, the adjust
   * and toggle buttons change one setting of the user and show the criteria, and any
   * other data is ignored. No press moves a stored limit off the 50..200 cycle.
   */
  method ButtonCallback(store: CriteriaStore, client: Client, connected: bool, user: int, data: string,
                        now: string, duration: int)
    returns (reply: ButtonReply)
    modifies store
    ensures DecodeCallback(data).StartRun? ==>
      && reply.RunFinished?
      && store.userData == (if connected then Touch(old(store.userData), user) else old(store.userData))
      && (!connected ==> reply.report == ConnectionFailed && reply.writes == [])
      && (connected ==>
            var groups := DecodeCallback(data).groups;
            var all := Gathered(client, store.userData[user], groups);
            && reply.report == Done(|groups|, |all|, CountUsernames(all), CountPhones(all))
            && RunWrites(reply.writes, groups, all, now, duration))
    ensures DecodeCallback(data) == AdjustMaxPressed ==>
      var before := Touch(old(store.userData), user)[user];
      && store.userData == Update(old(store.userData), user, MaxContacts(NextMax(before.maxContacts)))
      && reply == CriteriaShown(store.userData[user])
    ensures DecodeCallback(data) == ToggleBotsPressed ==>
      var before := Touch(old(store.userData), user)[user];
      && store.userData == Update(old(store.userData), user, ExcludeBots(!before.excludeBots))
      && reply == CriteriaShown(store.userData[user])
    ensures DecodeCallback(data) == NoAction ==> reply == Ignored && store.userData == old(store.userData)
    ensures old(store.LimitsOnCycle()) ==> store.LimitsOnCycle()
  {
    match DecodeCallback(data)
    case StartRun(groups) =>
      var report, writes := StartParsing(store, client, connected, user, groups, now, duration);
      reply := RunFinished(report, writes);
    case AdjustMaxPressed =>
      store.AdjustMax(user);
      var criteria := store.GetUserCriteria(user);
      reply := CriteriaShown(criteria);
    case ToggleBotsPressed =>
      store.ToggleBots(user);
      var criteria := store.GetUserCriteria(user);
      reply := CriteriaShown(criteria);
    case NoAction =>
      reply := Ignored;
  }
}
