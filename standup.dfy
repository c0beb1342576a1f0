/** The stand-up planner state of src/hooks/use-standup-data.ts: the
    selected day, the day's entries (one plan and capacity flag per member),
    loading a day's entries and editing one member's entry. Storage, timers
    and latency are not part of this model; what storage holds for a day is
    a parameter. */
module Standup {
  import opened Wrappers
  import opened Types
  import opened MockData

  /** A moment, as the two calendar days it falls on: `yyyy-MM-dd` in local
      time (what `format(date, 'yyyy-MM-dd')` gives) and in UTC (what
      `toISOString().split('T')[0]` gives). */
  datatype Instant = Instant(localKey: string, utcKey: string)

  /** `formatDateKey`. */
  function DateKey(d: Instant): string {
    d.localKey
  }

  /** `updateDailyEntry`: every entry of `memberId` dated `dateKey` gets the
      new plan and flag; the others stay as they are. */
  function UpdatedEntries(entries: seq<DailyEntry>, memberId: string, dateKey: string,
                          planText: string, flag: CapacityFlag): (r: seq<DailyEntry>)
    ensures |r| == |entries|
  {
    seq(|entries|, i requires 0 <= i < |entries| =>
      if entries[i].memberId == memberId && entries[i].date == dateKey
      then entries[i].(planText := planText, capacityFlag := flag)
      else entries[i])
  }

  /** The update keeps length and order and never touches an entry's id, day
      or member; a matching entry gets exactly the new plan and flag, any
      other entry is returned unchanged (src/hooks/use-standup-data.ts:78-86). */
  lemma UpdatedEntriesSpec(entries: seq<DailyEntry>, memberId: string, dateKey: string,
                           planText: string, flag: CapacityFlag, i: nat)
    requires i < |entries|
    ensures var e := UpdatedEntries(entries, memberId, dateKey, planText, flag)[i];
      && e.id == entries[i].id && e.date == entries[i].date && e.memberId == entries[i].memberId
      && (entries[i].memberId == memberId && entries[i].date == dateKey ==>
            e.planText == planText && e.capacityFlag == flag)
      && (entries[i].memberId != memberId || entries[i].date != dateKey ==> e == entries[i])
  {
  }

  /** A second edit of the same member on the same day replaces the first:
      only the last edit shows. */
  lemma UpdateLastWins(entries: seq<DailyEntry>, memberId: string, dateKey: string,
                       plan1: string, flag1: CapacityFlag, plan2: string, flag2: CapacityFlag)
    ensures UpdatedEntries(UpdatedEntries(entries, memberId, dateKey, plan1, flag1), memberId, dateKey, plan2, flag2)
      == UpdatedEntries(entries, memberId, dateKey, plan2, flag2)
  {
  }

  /** Edits of two different members do not interfere. */
  lemma UpdatesCommute(entries: seq<DailyEntry>, dateKey: string,
                       m1: string, plan1: string, flag1: CapacityFlag,
                       m2: string, plan2: string, flag2: CapacityFlag)
    requires m1 != m2
    ensures UpdatedEntries(UpdatedEntries(entries, m1, dateKey, plan1, flag1), m2, dateKey, plan2, flag2)
      == UpdatedEntries(UpdatedEntries(entries, m2, dateKey, plan2, flag2), m1, dateKey, plan1, flag1)
  {
  }

  /** The entries generated for a day nothing is stored for. */
  function DefaultEntries(members: seq<TeamMember>, dateKey: string): (entries: seq<DailyEntry>)
    ensures |entries| == |members|
  {
    seq(|members|, i requires 0 <= i < |members| =>
      DailyEntry(dateKey + "-" + members[i].id, dateKey, members[i].id, "", CapacityOptions[0].value))
  }

  /** One blank entry per member in roster order, with id `date-memberId`
      and the first capacity option, "available"
      (src/hooks/use-standup-data.ts:38-45). */
  lemma DefaultEntriesSpec(members: seq<TeamMember>, dateKey: string, i: nat)
    requires i < |members|
    ensures var e := DefaultEntries(members, dateKey)[i];
      && e.id == dateKey + "-" + members[i].id
      && e.date == dateKey && e.memberId == members[i].id
      && e.planText == "" && e.capacityFlag == Available
  {
    CapacityOptionsComplete(Available);
  }

  /** On a well-formed roster the generated entries have distinct ids, and an
      edit of a member on that day reaches exactly that member's entry. */
  lemma DefaultEntriesEditable(members: seq<TeamMember>, dateKey: string, p: nat, planText: string, flag: CapacityFlag)
    requires RosterWellFormed(members)
    requires p < |members|
    ensures forall i, j :: 0 <= i < j < |members| ==>
      DefaultEntries(members, dateKey)[i].id != DefaultEntries(members, dateKey)[j].id
    ensures var r := UpdatedEntries(DefaultEntries(members, dateKey), members[p].id, dateKey, planText, flag);
      && r[p].planText == planText && r[p].capacityFlag == flag
      && forall i :: 0 <= i < |members| && i != p ==> r[i] == DefaultEntries(members, dateKey)[i]
  {
    var entries := DefaultEntries(members, dateKey);
    forall i, j | 0 <= i < j < |members| ensures entries[i].id != entries[j].id {
      var prefix := dateKey + "-";
      assert entries[i].id[|prefix|..] == members[i].id;
      assert entries[j].id[|prefix|..] == members[j].id;
    }
  }

  /** `new Date().toISOString().split('T')[0]`: the UTC calendar day of a
      moment. */
  function IsoDay(d: Instant): string {
    d.utcKey
  }

  /** `fetchDailyEntries` as written: what storage holds for the day; else,
      when the day is today, the seed entries, which are dated `seedDay`,
      the UTC day of the moment the sample data were loaded; else the
      default entries. */
  function FetchDailyEntriesAsWritten(members: seq<TeamMember>, date: Instant, now: Instant,
                                      stored: Option<seq<DailyEntry>>, seedDay: string): (r: seq<DailyEntry>)
    ensures stored.Some? ==> r == stored.value
    ensures stored.None? && DateKey(date) == DateKey(now) ==> r == MockInitialDailyEntries(seedDay)
    ensures stored.None? && DateKey(date) != DateKey(now) ==>
      |r| == |members| && forall i :: 0 <= i < |r| ==> r[i].date == DateKey(date) && r[i].memberId == members[i].id
  {
    if stored.Some? then stored.value
    else if DateKey(date) == DateKey(now) then MockInitialDailyEntries(seedDay)
    else DefaultEntries(members, DateKey(date))
  }

  /** `fetchDailyEntries` with the seed entries dated by the same local day
      key every other entry and every edit use. */
  function FetchDailyEntries(members: seq<TeamMember>, date: Instant, now: Instant,
                             stored: Option<seq<DailyEntry>>): (r: seq<DailyEntry>)
    ensures stored.Some? ==> r == stored.value
    ensures stored.None? ==> forall i :: 0 <= i < |r| ==> r[i].date == DateKey(date)
    ensures stored.None? && DateKey(date) != DateKey(now) ==>
      |r| == |members| && forall i :: 0 <= i < |r| ==> r[i].memberId == members[i].id
  {
    if stored.Some? then stored.value
    else if DateKey(date) == DateKey(now) then MockInitialDailyEntries(DateKey(now))
    else DefaultEntries(members, DateKey(date))
  }

  /** The two loads differ only in the seed day: when the sample data were
      loaded on a UTC day equal to today's local day, the load as written is
      the corrected one. */
  lemma AsWrittenAgreesOnMatchingDays(members: seq<TeamMember>, date: Instant, now: Instant,
                                      stored: Option<seq<DailyEntry>>, seedDay: string)
    requires seedDay == DateKey(now)
    ensures FetchDailyEntriesAsWritten(members, date, now, stored, seedDay) == FetchDailyEntries(members, date, now, stored)
  {
  }

  /** Whatever is loaded for a day with nothing stored is dated with that
      day's key, and holds one entry per member of the sample roster, so an
      edit on that day reaches the member's entry
      (src/hooks/use-standup-data.ts:29-46 with :81). */
  lemma FetchedEntriesEditable(date: Instant, now: Instant, p: nat, planText: string, flag: CapacityFlag)
    requires p < |MockTeamMembers|
    ensures var loaded := FetchDailyEntries(MockTeamMembers, date, now, None);
      var r := UpdatedEntries(loaded, MockTeamMembers[p].id, DateKey(date), planText, flag);
      && |loaded| == |MockTeamMembers|
      && (forall i :: 0 <= i < |loaded| ==> loaded[i].date == DateKey(date) && loaded[i].memberId == MockTeamMembers[i].id)
      && r[p].planText == planText && r[p].capacityFlag == flag
  {
    var loaded := FetchDailyEntries(MockTeamMembers, date, now, None);
    if DateKey(date) != DateKey(now) {
      forall i | 0 <= i < |loaded| ensures loaded[i].date == DateKey(date) && loaded[i].memberId == MockTeamMembers[i].id {
        DefaultEntriesSpec(MockTeamMembers, DateKey(date), i);
      }
    }
  }

  /** As written, an edit of today's seed entries is lost when the local day
      and the UTC day differ: with the sample data loaded at 01:00 on
      16 October 2026 in UTC+2 and the page showing that day, the seed
      entries are dated 2026-10-15, the page edits 2026-10-16, and nothing
      changes. */
  lemma SeedEditLostAsWritten()
    ensures var now := Instant("2026-10-16", "2026-10-15");
      var loaded := FetchDailyEntriesAsWritten(MockTeamMembers, now, now, None, IsoDay(now));
      && UpdatedEntries(loaded, "member-1", DateKey(now), "new plan", Available) == loaded
      && loaded[0].planText != "new plan"
  {
    var now := Instant("2026-10-16", "2026-10-15");
    var loaded := FetchDailyEntriesAsWritten(MockTeamMembers, now, now, None, IsoDay(now));
    assert forall i :: 0 <= i < |loaded| ==> loaded[i].date == "2026-10-15";
    assert "2026-10-15" != "2026-10-16" by {
      assert "2026-10-15"[9] != "2026-10-16"[9];
    }
  }

  /** `handleDateChange`: a missing date leaves the selection as it is. */
  function SelectDate(selected: Instant, date: Option<Instant>): (r: Instant)
    ensures date.None? ==> r == selected
    ensures date.Some? ==> r == date.value
  {
    if date.Some? then date.value else selected
  }

  /** The planner's state: the selected day and the entries shown for it. */
  class StandupPlanner {
    const teamMembers: seq<TeamMember>
    /** The day the seed entries carry, fixed when the sample data are
        loaded. */
    const seedDay: string
    var selectedDate: Instant
    var dailyEntries: seq<DailyEntry>

    /** The sample roster, the given day, no entries until loaded;
        `dataLoaded` is the moment the sample data were loaded. */
    constructor(initialDate: Instant, dataLoaded: Instant)
      ensures teamMembers == MockTeamMembers && seedDay == IsoDay(dataLoaded)
      ensures selectedDate == initialDate && dailyEntries == []
    {
      teamMembers := MockTeamMembers;
      seedDay := IsoDay(dataLoaded);
      selectedDate := initialDate;
      dailyEntries := [];
    }

    /** Loads the selected day's entries; `stored` is what storage holds for
        that day and `now` the current moment. */
    method LoadEntries(stored: Option<seq<DailyEntry>>, now: Instant)
      modifies this
      ensures dailyEntries == FetchDailyEntriesAsWritten(teamMembers, selectedDate, now, stored, seedDay)
      ensures selectedDate == old(selectedDate)
    {
      dailyEntries := FetchDailyEntriesAsWritten(teamMembers, selectedDate, now, stored, seedDay);
    }

    method UpdateDailyEntry(memberId: string, planText: string, flag: CapacityFlag)
      modifies this
      ensures dailyEntries == UpdatedEntries(old(dailyEntries), memberId, DateKey(selectedDate), planText, flag)
      ensures selectedDate == old(selectedDate)
    {
      dailyEntries := UpdatedEntries(dailyEntries, memberId, DateKey(selectedDate), planText, flag);
    }

    method HandleDateChange(date: Option<Instant>)
      modifies this
      ensures selectedDate == SelectDate(old(selectedDate), date)
      ensures dailyEntries == old(dailyEntries)
    {
      selectedDate := SelectDate(selectedDate, date);
    }
  }
}
