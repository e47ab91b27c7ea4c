/** The alert list of the Alerts page (src/pages/Alerts.tsx): the filter
    tabs, the unread count, mark-as-read, mark-all-as-read, dismiss, and the
    per-type summary counts. Every operation builds a new list. */
module Alerts {
  datatype AlertType = Warning | Success | Info | Danger

  /** An alert without its icon, message and time texts. */
  datatype Alert = Alert(id: string, kind: AlertType, title: string, read: bool, actionable: bool)

  /** The filter tabs. */
  datatype Filter = All | Unread | Warnings | Achievements

  /** `list.filter(p)`. */
  function Select(alerts: seq<Alert>, p: Alert -> bool): (r: seq<Alert>)
    ensures |r| <= |alerts|
  {
    if alerts == [] then []
    else if p(alerts[0]) then [alerts[0]] + Select(alerts[1..], p)
    else Select(alerts[1..], p)
  }

  /** Filtering keeps exactly the alerts that pass. */
  lemma {:induction false} SelectMembers(alerts: seq<Alert>, p: Alert -> bool)
    ensures forall a :: a in Select(alerts, p) <==> a in alerts && p(a)
  {
    if alerts != [] {
      SelectMembers(alerts[1..], p);
      assert alerts == [alerts[0]] + alerts[1..];
    }
  }

  /** `r` is `s` with some elements left out, the rest in their order. */
  predicate IsSubsequence(r: seq<Alert>, s: seq<Alert>)
    decreases |s|
  {
    if r == [] then true
    else if s == [] then false
    else (r[0] == s[0] && IsSubsequence(r[1..], s[1..])) || IsSubsequence(r, s[1..])
  }

  /** Filtering keeps the order of what it keeps. */
  lemma {:induction false} SelectIsSubsequence(alerts: seq<Alert>, p: Alert -> bool)
    ensures IsSubsequence(Select(alerts, p), alerts)
  {
    if alerts != [] {
      SelectIsSubsequence(alerts[1..], p);
    }
  }

  /** Filtering distributes over concatenation. */
  lemma {:induction false} SelectAppend(s: seq<Alert>, t: seq<Alert>, p: Alert -> bool)
    ensures Select(s + t, p) == Select(s, p) + Select(t, p)
  {
    if s == [] {
      assert s + t == t;
    } else {
      assert (s + t)[0] == s[0];
      assert (s + t)[1..] == s[1..] + t;
      SelectAppend(s[1..], t, p);
      if p(s[0]) {
        assert Select(s + t, p) == [s[0]] + Select(s[1..] + t, p);
        assert Select(s, p) == [s[0]] + Select(s[1..], p);
      } else {
        assert Select(s + t, p) == Select(s[1..] + t, p);
        assert Select(s, p) == Select(s[1..], p);
      }
    }
  }

  /** A filter that rejects every alert yields nothing. */
  lemma {:induction false} SelectNone(s: seq<Alert>, p: Alert -> bool)
    requires forall i :: 0 <= i < |s| ==> !p(s[i])
    ensures Select(s, p) == []
  {
    if s != [] {
      SelectNone(s[1..], p);
    }
  }

  /** When every alert of `r` that passes has its counterpart in `s` pass
      too, `r` keeps no more alerts than `s`. */
  lemma {:induction false} SelectFewer(r: seq<Alert>, s: seq<Alert>, p: Alert -> bool)
    requires |r| == |s| && forall i :: 0 <= i < |r| && p(r[i]) ==> p(s[i])
    ensures |Select(r, p)| <= |Select(s, p)|
  {
    if r != [] {
      SelectFewer(r[1..], s[1..], p);
    }
  }

  function FilterKeeps(f: Filter): Alert -> bool {
    match f
    case All => (a: Alert) => true
    case Unread => (a: Alert) => !a.read
    case Warnings => (a: Alert) => a.kind == Warning
    case Achievements => (a: Alert) => a.kind == Success
  }

  /** `filteredAlerts`. */
  function FilteredAlerts(alerts: seq<Alert>, f: Filter): (shown: seq<Alert>)
    ensures |shown| <= |alerts|
    ensures f == All ==> shown == alerts
  {
    SelectAllKeeps(alerts);
    Select(alerts, FilterKeeps(f))
  }

  /** "all" keeps the list as it is; the other tabs keep exactly the unread
      alerts, the warnings, or the successes, in their order. */
  lemma FilterMeaning(alerts: seq<Alert>, f: Filter)
    ensures f == All ==> FilteredAlerts(alerts, f) == alerts
    ensures f == Unread ==> forall a :: a in FilteredAlerts(alerts, f) <==> a in alerts && !a.read
    ensures f == Warnings ==> forall a :: a in FilteredAlerts(alerts, f) <==> a in alerts && a.kind == Warning
    ensures f == Achievements ==> forall a :: a in FilteredAlerts(alerts, f) <==> a in alerts && a.kind == Success
    ensures IsSubsequence(FilteredAlerts(alerts, f), alerts)
  {
    SelectIsSubsequence(alerts, FilterKeeps(f));
    SelectMembers(alerts, FilterKeeps(f));
  }

  lemma {:induction false} SelectAllKeeps(alerts: seq<Alert>)
    ensures Select(alerts, FilterKeeps(All)) == alerts
  {
    if alerts != [] {
      SelectAllKeeps(alerts[1..]);
    }
  }

  /** `alerts.filter(a => !a.read).length`. */
  function UnreadCount(alerts: seq<Alert>): (n: nat)
    ensures n <= |alerts|
  {
    |Select(alerts, FilterKeeps(Unread))|
  }

  /** The badge shows no unread alerts exactly when every alert is read. */
  lemma {:induction false} UnreadCountZero(alerts: seq<Alert>)
    ensures UnreadCount(alerts) == 0 <==> forall i :: 0 <= i < |alerts| ==> alerts[i].read
  {
    if alerts != [] {
      UnreadCountZero(alerts[1..]);
      assert forall i :: 1 <= i < |alerts| ==> alerts[i] == alerts[1..][i - 1];
    }
  }

  /** The unread count adds up over a concatenation, and one alert counts
      one exactly when it is unread: it counts the unread alerts. */
  lemma UnreadCountMeaning(s: seq<Alert>, t: seq<Alert>, a: Alert)
    ensures UnreadCount(s + t) == UnreadCount(s) + UnreadCount(t)
    ensures UnreadCount([a]) == if a.read then 0 else 1
  {
    SelectAppend(s, t, FilterKeeps(Unread));
  }

  /** `markAsRead(id)`. */
  function MarkAsRead(alerts: seq<Alert>, id: string): (r: seq<Alert>)
    ensures |r| == |alerts|
  {
    seq(|alerts|, i requires 0 <= i < |alerts| => if alerts[i].id == id then alerts[i].(read := true) else alerts[i])
  }

  /** Marking an alert read touches only the alerts with that id, and only
      their `read` flag; doing it twice is doing it once. */
  lemma MarkAsReadFacts(alerts: seq<Alert>, id: string)
    ensures forall i :: 0 <= i < |alerts| && alerts[i].id != id ==> MarkAsRead(alerts, id)[i] == alerts[i]
    ensures forall i :: 0 <= i < |alerts| && alerts[i].id == id ==>
      MarkAsRead(alerts, id)[i].read && MarkAsRead(alerts, id)[i] == alerts[i].(read := true)
    ensures MarkAsRead(MarkAsRead(alerts, id), id) == MarkAsRead(alerts, id)
  {
  }

  /** Marking read never raises the unread count. */
  lemma MarkAsReadUnread(alerts: seq<Alert>, id: string)
    ensures UnreadCount(MarkAsRead(alerts, id)) <= UnreadCount(alerts)
  {
    SelectFewer(MarkAsRead(alerts, id), alerts, FilterKeeps(Unread));
  }

  /** `markAllAsRead`. */
  function MarkAllAsRead(alerts: seq<Alert>): (r: seq<Alert>)
    ensures |r| == |alerts|
  {
    seq(|alerts|, i requires 0 <= i < |alerts| => alerts[i].(read := true))
  }

  /** After marking all read nothing is unread, the length is unchanged and
      every other field of every alert is kept. */
  lemma MarkAllAsReadFacts(alerts: seq<Alert>)
    ensures UnreadCount(MarkAllAsRead(alerts)) == 0
    ensures forall i :: 0 <= i < |alerts| ==> MarkAllAsRead(alerts)[i] == alerts[i].(read := true)
  {
    SelectNone(MarkAllAsRead(alerts), FilterKeeps(Unread));
  }

  /** `dismissAlert(id)`. */
  function Dismiss(alerts: seq<Alert>, id: string): (kept: seq<Alert>)
    ensures |kept| <= |alerts|
  {
    Select(alerts, (a: Alert) => a.id != id)
  }

  /** Dismissing removes exactly the alerts with that id and keeps the rest
      in order. */
  lemma DismissFacts(alerts: seq<Alert>, id: string)
    ensures forall a :: a in Dismiss(alerts, id) <==> a in alerts && a.id != id
    ensures IsSubsequence(Dismiss(alerts, id), alerts)
  {
    SelectIsSubsequence(alerts, (a: Alert) => a.id != id);
    SelectMembers(alerts, (a: Alert) => a.id != id);
  }

  /** Dismissing an id no alert carries changes nothing. */
  lemma {:induction false} DismissAbsent(alerts: seq<Alert>, id: string)
    requires forall i :: 0 <= i < |alerts| ==> alerts[i].id != id
    ensures Dismiss(alerts, id) == alerts
  {
    if alerts != [] {
      DismissAbsent(alerts[1..], id);
    }
  }

  /** `alerts.filter(a => a.type === t).length`. */
  function CountOfType(alerts: seq<Alert>, t: AlertType): (n: nat)
    ensures n <= |alerts|
  {
    |Select(alerts, (a: Alert) => a.kind == t)|
  }

  /** The four type counts add up to the list length, so the three shown
      (warnings, successes, infos) add up to at most it. */
  lemma {:induction false} TypeCounts(alerts: seq<Alert>)
    ensures CountOfType(alerts, Warning) + CountOfType(alerts, Success) +
      CountOfType(alerts, Info) + CountOfType(alerts, Danger) == |alerts|
    ensures CountOfType(alerts, Warning) + CountOfType(alerts, Success) + CountOfType(alerts, Info) <= |alerts|
  {
    if alerts != [] {
      TypeCounts(alerts[1..]);
    }
  }
}
