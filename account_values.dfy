/** The account-value chart of the dashboard: one entry per distinct
    snapshot time, holding for every account the value of its latest
    snapshot at or before that time, with a single present-time entry of the
    stored values when no snapshot entry results. */
module AccountValues {
  import opened Wrappers
  import Text
  import Sorting
  import Seqs

  /** An account row; the value columns are taken to be decimal columns,
      which arrive as strings, so a stored value of zero is still present
      (truthy). */
  datatype AccountRow = AccountRow(id: string, currentBalance: real, accountValue: Option<real>)

  /** An account snapshot row; `snapshotAt` is its time in epoch
      milliseconds. */
  datatype Snapshot = Snapshot(accountId: string, snapshotAt: int, accountValue: Option<real>)

  /** One point of the chart: account id to value. */
  datatype Entry = Entry(timestamp: int, models: map<string, real>)

  /** The snapshots of one account, in query order. */
  function SnapshotsOf(snaps: seq<Snapshot>, id: string): seq<Snapshot>
  {
    if |snaps| == 0 then []
    else
      var last := snaps[|snaps| - 1];
      SnapshotsOf(snaps[..|snaps| - 1], id) + (if last.accountId == id then [last] else [])
  }

  /** The lookup `snapshotsByAccount.get(id) || []`. */
  function GroupOf(groups: map<string, seq<Snapshot>>, id: string): seq<Snapshot>
  {
    if id in groups then groups[id] else []
  }

  /** The grouping loop: each account's snapshots, in order. */
  method GroupByAccount(snaps: seq<Snapshot>) returns (groups: map<string, seq<Snapshot>>)
    ensures forall id :: GroupOf(groups, id) == SnapshotsOf(snaps, id)
    ensures forall id :: id in groups <==> exists i :: 0 <= i < |snaps| && snaps[i].accountId == id
  {
    groups := map[];
    for i := 0 to |snaps|
      invariant forall id :: GroupOf(groups, id) == SnapshotsOf(snaps[..i], id)
      invariant forall id :: id in groups <==> exists k :: 0 <= k < i && snaps[k].accountId == id
    {
      var s := snaps[i];
      assert snaps[..i + 1][..i] == snaps[..i];
      if s.accountId !in groups {
        groups := groups[s.accountId := []];
      }
      groups := groups[s.accountId := groups[s.accountId] + [s]];
    }
    assert snaps[..|snaps|] == snaps;
  }

  /** The snapshot the handler picks by filtering to `snapshot_at <= t` and
      taking the head of a stable sort by time descending: the latest one,
      and of equally late ones the first in query order. */
  function Latest(snaps: seq<Snapshot>, t: int): Option<Snapshot>
  {
    if |snaps| == 0 then None
    else
      var best := Latest(snaps[..|snaps| - 1], t);
      var last := snaps[|snaps| - 1];
      if last.snapshotAt <= t && (best.None? || last.snapshotAt > best.value.snapshotAt) then Some(last)
      else best
  }

  /** The pick is absent exactly when no snapshot is at or before `t`;
      otherwise it is at or before `t`, no other such snapshot is later, and
      every earlier one in query order is strictly earlier in time. */
  lemma {:induction false} LatestSpec(snaps: seq<Snapshot>, t: int)
    ensures Latest(snaps, t).None? <==> forall i :: 0 <= i < |snaps| ==> snaps[i].snapshotAt > t
    ensures Latest(snaps, t).Some? ==>
      var c := Latest(snaps, t).value;
      c.snapshotAt <= t &&
      (forall i :: 0 <= i < |snaps| && snaps[i].snapshotAt <= t ==> snaps[i].snapshotAt <= c.snapshotAt) &&
      exists k :: 0 <= k < |snaps| && snaps[k] == c &&
        forall j :: 0 <= j < k && snaps[j].snapshotAt <= t ==> snaps[j].snapshotAt < c.snapshotAt
  {
    if |snaps| > 0 {
      var p := snaps[..|snaps| - 1];
      var last := snaps[|snaps| - 1];
      LatestSpec(p, t);
      assert forall i :: 0 <= i < |p| ==> p[i] == snaps[i];
      var best := Latest(p, t);
      if last.snapshotAt <= t && (best.None? || last.snapshotAt > best.value.snapshotAt) {
        assert snaps[|snaps| - 1] == last;
      } else if best.Some? {
        var c := best.value;
        var k :| 0 <= k < |p| && p[k] == c &&
          forall j :: 0 <= j < k && p[j].snapshotAt <= t ==> p[j].snapshotAt < c.snapshotAt;
        assert snaps[k] == c;
      }
    }
  }

  /** The value shown for one account at time `t`: its picked snapshot's
      value, else its stored value, else nothing. */
  function ValueAt(a: AccountRow, group: seq<Snapshot>, t: int): Option<real>
  {
    var c := Latest(group, t);
    if c.Some? && c.value.accountValue.Some? then c.value.accountValue else a.accountValue
  }

  /** The inner loop's `entry.models` after the given accounts. */
  function Models(accounts: seq<AccountRow>, snaps: seq<Snapshot>, t: int): map<string, real>
  {
    if |accounts| == 0 then map[]
    else
      var m := Models(accounts[..|accounts| - 1], snaps, t);
      var a := accounts[|accounts| - 1];
      match ValueAt(a, SnapshotsOf(snaps, a.id), t)
      case Some(v) => m[a.id := v]
      case None => m
  }

  predicate DistinctIds(accounts: seq<AccountRow>)
  {
    forall i, j :: 0 <= i < j < |accounts| ==> accounts[i].id != accounts[j].id
  }

  /** With distinct account ids, an account is in an entry exactly when it
      has a value at that time, and then with that value; no other key
      appears. */
  lemma {:induction false} ModelsSpec(accounts: seq<AccountRow>, snaps: seq<Snapshot>, t: int)
    requires DistinctIds(accounts)
    ensures var m := Models(accounts, snaps, t);
      forall k :: 0 <= k < |accounts| ==>
        var v := ValueAt(accounts[k], SnapshotsOf(snaps, accounts[k].id), t);
        (accounts[k].id in m <==> v.Some?) && (v.Some? ==> m[accounts[k].id] == v.value)
    ensures forall id :: id in Models(accounts, snaps, t) ==> exists k :: 0 <= k < |accounts| && accounts[k].id == id
  {
    if |accounts| > 0 {
      var p := accounts[..|accounts| - 1];
      var a := accounts[|accounts| - 1];
      assert forall k :: 0 <= k < |p| ==> p[k] == accounts[k];
      ModelsSpec(p, snaps, t);
      var m := Models(accounts, snaps, t);
      forall id | id in m ensures exists k :: 0 <= k < |accounts| && accounts[k].id == id {
        if id != a.id {
          assert id in Models(p, snaps, t);
          var k :| 0 <= k < |p| && p[k].id == id;
          assert accounts[k].id == id;
        } else {
          assert accounts[|accounts| - 1].id == id;
        }
      }
    }
  }

  function Times(snaps: seq<Snapshot>): (r: seq<int>)
    ensures |r| == |snaps|
    ensures forall i :: 0 <= i < |snaps| ==> r[i] == snaps[i].snapshotAt
  {
    seq(|snaps|, i requires 0 <= i < |snaps| => snaps[i].snapshotAt)
  }

  /** The distinct snapshot times, sorted `sort()`-style by their decimal
      strings. */
  function UniqueTimestamps(snaps: seq<Snapshot>): seq<int>
  {
    Sorting.SortAscByString(Seqs.Distinct(Times(snaps)), Text.IntToString)
  }

  /** The timestamps are the snapshot times, each once, in string order. */
  lemma UniqueTimestampsSpec(snaps: seq<Snapshot>)
    ensures var ts := UniqueTimestamps(snaps);
      (forall i, j :: 0 <= i < j < |ts| ==> ts[i] != ts[j]) &&
      (forall x :: x in ts <==> exists i :: 0 <= i < |snaps| && snaps[i].snapshotAt == x) &&
      Sorting.SortedAscByString(ts, Text.IntToString)
  {
    var times := Times(snaps);
    var d := Seqs.Distinct(times);
    var ts := UniqueTimestamps(snaps);
    Sorting.SortAscByStringCorrect(d, Text.IntToString);
    Seqs.PermutationKeepsDistinct(ts, d);
    forall x ensures x in ts <==> exists i :: 0 <= i < |snaps| && snaps[i].snapshotAt == x {
      assert x in ts <==> x in multiset(ts);
      assert x in d <==> x in multiset(d);
      if x in times {
        var i :| 0 <= i < |times| && times[i] == x;
        assert snaps[i].snapshotAt == x;
      }
    }
  }

  /** The outer loop's entries for the given timestamps: entries with no
      account value are dropped. */
  function SnapshotEntries(accounts: seq<AccountRow>, snaps: seq<Snapshot>, ts: seq<int>): seq<Entry>
  {
    if |ts| == 0 then []
    else
      var es := SnapshotEntries(accounts, snaps, ts[..|ts| - 1]);
      var m := Models(accounts, snaps, ts[|ts| - 1]);
      if |m| > 0 then es + [Entry(ts[|ts| - 1], m)] else es
  }

  /** The present-time entry: stored value, else current balance. */
  function FallbackModels(accounts: seq<AccountRow>): map<string, real>
  {
    if |accounts| == 0 then map[]
    else
      var a := accounts[|accounts| - 1];
      FallbackModels(accounts[..|accounts| - 1])[a.id := a.accountValue.GetOr(a.currentBalance)]
  }

  /** The handler's result; the present time `now` is a parameter. */
  function AccountValuesOf(accounts: seq<AccountRow>, snaps: seq<Snapshot>, now: int): seq<Entry>
  {
    if |accounts| == 0 then []
    else
      var es := if |snaps| > 0 then SnapshotEntries(accounts, snaps, UniqueTimestamps(snaps)) else [];
      if |es| > 0 then es
      else
        var fm := FallbackModels(accounts);
        if |fm| > 0 then [Entry(now, fm)] else []
  }

  /** The inner loop over the accounts for one timestamp. */
  method EntryModels(accounts: seq<AccountRow>, snaps: seq<Snapshot>, groups: map<string, seq<Snapshot>>, t: int)
    returns (models: map<string, real>)
    requires forall id :: GroupOf(groups, id) == SnapshotsOf(snaps, id)
    ensures models == Models(accounts, snaps, t)
  {
    models := map[];
    for j := 0 to |accounts|
      invariant models == Models(accounts[..j], snaps, t)
    {
      var a := accounts[j];
      assert accounts[..j + 1][..j] == accounts[..j];
      var closest := Latest(GroupOf(groups, a.id), t);
      if closest.Some? && closest.value.accountValue.Some? {
        models := models[a.id := closest.value.accountValue.value];
      } else if a.accountValue.Some? {
        models := models[a.id := a.accountValue.value];
      }
    }
    assert accounts[..|accounts|] == accounts;
  }

  /** The fallback loop: every account's stored value or current balance. */
  method CurrentModels(accounts: seq<AccountRow>) returns (current: map<string, real>)
    ensures current == FallbackModels(accounts)
  {
    current := map[];
    for j := 0 to |accounts|
      invariant current == FallbackModels(accounts[..j])
    {
      var a := accounts[j];
      assert accounts[..j + 1][..j] == accounts[..j];
      if a.accountValue.Some? {
        current := current[a.id := a.accountValue.value];
      } else {
        current := current[a.id := a.currentBalance];
      }
    }
    assert accounts[..|accounts|] == accounts;
  }

  /** The outer loop over the timestamps. */
  method SnapshotPass(accounts: seq<AccountRow>, snaps: seq<Snapshot>, groups: map<string, seq<Snapshot>>, ts: seq<int>)
    returns (values: seq<Entry>)
    requires forall id :: GroupOf(groups, id) == SnapshotsOf(snaps, id)
    ensures values == SnapshotEntries(accounts, snaps, ts)
  {
    values := [];
    for i := 0 to |ts|
      invariant values == SnapshotEntries(accounts, snaps, ts[..i])
    {
      var t := ts[i];
      var models := EntryModels(accounts, snaps, groups, t);
      assert ts[..i + 1][..i] == ts[..i];
      if |models| > 0 {
        values := values + [Entry(t, models)];
      }
    }
    assert ts[..|ts|] == ts;
  }

  /** The handler's loops. */
  method BuildAccountValues(accounts: seq<AccountRow>, snaps: seq<Snapshot>, now: int)
    returns (values: seq<Entry>)
    ensures values == AccountValuesOf(accounts, snaps, now)
    ensures |accounts| == 0 ==> values == []
  {
    if |accounts| == 0 {
      return [];
    }
    values := [];
    var groups := GroupByAccount(snaps);
    if |snaps| > 0 {
      values := SnapshotPass(accounts, snaps, groups, UniqueTimestamps(snaps));
    }
    if |values| == 0 {
      var current := CurrentModels(accounts);
      if |current| > 0 {
        values := values + [Entry(now, current)];
      }
    }
  }

  /** Every entry of the snapshot pass holds a value, at a timestamp taken
      from the list in order. */
  lemma {:induction false} SnapshotEntriesSpec(accounts: seq<AccountRow>, snaps: seq<Snapshot>, ts: seq<int>)
    ensures var es := SnapshotEntries(accounts, snaps, ts);
      |es| <= |ts| &&
      forall k :: 0 <= k < |es| ==>
        |es[k].models| > 0 && es[k].timestamp in ts && es[k].models == Models(accounts, snaps, es[k].timestamp)
  {
    if |ts| > 0 {
      var p := ts[..|ts| - 1];
      SnapshotEntriesSpec(accounts, snaps, p);
      assert forall x :: x in p ==> x in ts;
      assert ts[|ts| - 1] in ts;
    }
  }

  /** A timestamp with some account value gets an entry. */
  lemma {:induction false} SnapshotEntriesComplete(accounts: seq<AccountRow>, snaps: seq<Snapshot>, ts: seq<int>, t: int)
    requires t in ts && |Models(accounts, snaps, t)| > 0
    ensures (exists k :: 0 <= k < |SnapshotEntries(accounts, snaps, ts)| &&
               SnapshotEntries(accounts, snaps, ts)[k].timestamp == t)
  {
    var p := ts[..|ts| - 1];
    var es := SnapshotEntries(accounts, snaps, ts);
    if ts[|ts| - 1] == t {
      assert es[|es| - 1].timestamp == t;
    } else {
      assert t in p by {
        var i :| 0 <= i < |ts| && ts[i] == t;
        assert p[i] == t;
      }
      SnapshotEntriesComplete(accounts, snaps, p, t);
      var k :| 0 <= k < |SnapshotEntries(accounts, snaps, p)| && SnapshotEntries(accounts, snaps, p)[k].timestamp == t;
      assert es[k].timestamp == t;
    }
  }

  /** The fallback entry holds every account, with its stored value or else
      its current balance. */
  lemma {:induction false} FallbackModelsSpec(accounts: seq<AccountRow>)
    requires DistinctIds(accounts)
    ensures var fm := FallbackModels(accounts);
      (forall k :: 0 <= k < |accounts| ==>
        accounts[k].id in fm && fm[accounts[k].id] == accounts[k].accountValue.GetOr(accounts[k].currentBalance)) &&
      (forall id :: id in fm ==> exists k :: 0 <= k < |accounts| && accounts[k].id == id) &&
      (|accounts| > 0 ==> |fm| > 0)
  {
    if |accounts| > 0 {
      var p := accounts[..|accounts| - 1];
      var a := accounts[|accounts| - 1];
      assert forall k :: 0 <= k < |p| ==> p[k] == accounts[k];
      FallbackModelsSpec(p);
      var fm := FallbackModels(accounts);
      assert a.id in fm;
      forall id | id in fm ensures exists k :: 0 <= k < |accounts| && accounts[k].id == id {
        if id != a.id {
          assert id in FallbackModels(p);
          var k :| 0 <= k < |p| && p[k].id == id;
          assert accounts[k].id == id;
        } else {
          assert accounts[|accounts| - 1].id == id;
        }
      }
    }
  }

  /** No accounts give no entries; otherwise every entry holds a value.
      Whenever the snapshots yield any entry, those entries are the result,
      each at a snapshot time and holding exactly the accounts' values at
      that time; only when they yield none is the result the one present-time
      entry of every account's stored value or current balance. */
  lemma AccountValuesSpec(accounts: seq<AccountRow>, snaps: seq<Snapshot>, now: int)
    requires DistinctIds(accounts)
    ensures var vs := AccountValuesOf(accounts, snaps, now);
      (|accounts| == 0 <==> vs == []) &&
      (forall k :: 0 <= k < |vs| ==> |vs[k].models| > 0) &&
      (|accounts| > 0 ==>
        var es := if |snaps| > 0 then SnapshotEntries(accounts, snaps, UniqueTimestamps(snaps)) else [];
        (es != [] ==>
           vs == es &&
           forall k :: 0 <= k < |vs| ==>
             (exists i :: 0 <= i < |snaps| && snaps[i].snapshotAt == vs[k].timestamp) &&
             vs[k].models == Models(accounts, snaps, vs[k].timestamp)) &&
        (es == [] ==> vs == [Entry(now, FallbackModels(accounts))]))
  {
    FallbackModelsSpec(accounts);
    var vs := AccountValuesOf(accounts, snaps, now);
    if |accounts| > 0 {
      assert accounts[|accounts| - 1].id in FallbackModels(accounts);
      if |snaps| > 0 {
        var ts := UniqueTimestamps(snaps);
        var es := SnapshotEntries(accounts, snaps, ts);
        SnapshotEntriesSpec(accounts, snaps, ts);
        UniqueTimestampsSpec(snaps);
        forall k | 0 <= k < |es| ensures exists i :: 0 <= i < |snaps| && snaps[i].snapshotAt == es[k].timestamp {
          assert es[k].timestamp in ts;
        }
        if |es| > 0 {
          assert vs == es;
        } else {
          assert vs == [Entry(now, FallbackModels(accounts))];
        }
      } else {
        assert vs == [Entry(now, FallbackModels(accounts))];
      }
    }
  }
}
