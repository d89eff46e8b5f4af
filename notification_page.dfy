/** src/modules/notification/NotificationPage.tsx: the notification list
    with its read/unread tabs, mark-as-read and delete. */
module NotificationPage {
  import opened Wrappers
  import opened Seqs

  /** `Notification`; its author and data payload are not modelled. */
  datatype Notification = Notification(idNotification: string, title: string, message: string, createdAt: string, read: bool, kind: string)

  datatype Tab = All | Read | Unread

  predicate IsUnread(n: Notification) { !n.read }
  predicate IsRead(n: Notification) { n.read }

  /** `isDisable`: system notifications lead nowhere. */
  predicate IsDisable(n: Notification) { n.kind == "system" }

  /** `prev.map(n => n.idNotification === id ? { ...n, read: true } : n)`. */
  function MarkRead(ns: seq<Notification>, id: string): (r: seq<Notification>)
    ensures |r| == |ns|
    ensures forall i :: 0 <= i < |ns| ==> r[i] == if ns[i].idNotification == id then ns[i].(read := true) else ns[i]
  {
    seq(|ns|, i requires 0 <= i < |ns| => if ns[i].idNotification == id then ns[i].(read := true) else ns[i])
  }

  /** Marking changes only the read flag of the entries with that id:
      ids and order are kept, the marked entries are read, and marking again
      changes nothing. */
  lemma MarkReadProperties(ns: seq<Notification>, id: string)
    ensures forall i :: 0 <= i < |ns| ==> MarkRead(ns, id)[i].idNotification == ns[i].idNotification
    ensures forall i :: 0 <= i < |ns| && ns[i].idNotification == id ==> MarkRead(ns, id)[i].read
    ensures forall i :: 0 <= i < |ns| && ns[i].idNotification != id ==> MarkRead(ns, id)[i] == ns[i]
    ensures MarkRead(MarkRead(ns, id), id) == MarkRead(ns, id)
  {
  }

  /** After marking, no entry with that id is on the unread tab. */
  lemma MarkReadLeavesUnread(ns: seq<Notification>, id: string, n: Notification)
    requires n in Visible(MarkRead(ns, id), Unread)
    ensures n.idNotification != id && n in ns
  {
    FilterMembers(MarkRead(ns, id), IsUnread, n);
    var i :| 0 <= i < |MarkRead(ns, id)| && MarkRead(ns, id)[i] == n;
  }

  /** `prev.filter(n => n.idNotification !== id)`. */
  function RemoveId(ns: seq<Notification>, id: string): (r: seq<Notification>)
    ensures |r| <= |ns|
    ensures forall i :: 0 <= i < |r| ==> r[i].idNotification != id
  {
    Filter(ns, (n: Notification) => n.idNotification != id)
  }

  /** Delete removes exactly the entries with that id and keeps the others
      in order. */
  lemma RemoveIdMembers(ns: seq<Notification>, id: string, n: Notification)
    ensures n in RemoveId(ns, id) <==> n in ns && n.idNotification != id
    ensures IsSubsequence(RemoveId(ns, id), ns)
    ensures multiset(RemoveId(ns, id))[n] == if n.idNotification != id then multiset(ns)[n] else 0
  {
    FilterMembers(ns, (n: Notification) => n.idNotification != id, n);
    FilterIsSubsequence(ns, (n: Notification) => n.idNotification != id);
    FilterCounts(ns, (n: Notification) => n.idNotification != id, n);
  }

  /** `filtered`: what a tab shows. "all" shows the list itself; "read"
      and "unread" show no more entries than the list, each with the tab's
      read flag. */
  function Visible(ns: seq<Notification>, tab: Tab): (shown: seq<Notification>)
    ensures tab == All ==> shown == ns
    ensures |shown| <= |ns|
    ensures tab == Read ==> forall i :: 0 <= i < |shown| ==> shown[i].read
    ensures tab == Unread ==> forall i :: 0 <= i < |shown| ==> !shown[i].read
  {
    match tab
    case All => ns
    case Read => Filter(ns, IsRead)
    case Unread => Filter(ns, IsUnread)
  }

  /** The read and unread tabs split the list: every entry is on exactly
      one of them, as often as it occurs. */
  lemma TabsPartition(ns: seq<Notification>)
    ensures multiset(Visible(ns, Read)) + multiset(Visible(ns, Unread)) == multiset(Visible(ns, All))
    ensures |Visible(ns, Read)| + |Visible(ns, Unread)| == |ns|
    ensures forall n :: n in Visible(ns, Read) ==> n.read
    ensures forall n :: n in Visible(ns, Unread) ==> !n.read
  {
    FilterPartition(ns, IsRead, IsUnread);
  }

  /** `if (path) navigate(path)`. */
  function GoToDetail(path: Option<string>): (target: Option<string>)
    ensures target.Some? <==> Truthy(path)
    ensures target.Some? ==> target == path
  {
    if Truthy(path) then path else None
  }

  /** A click on a listed notification, whose button is `disabled` for a
      system notification: `path` is what the notification's path builder
      derives. A system notification never navigates; any other one
      navigates exactly when its path is non-empty. */
  function ItemClick(n: Notification, path: Option<string>): (target: Option<string>)
    ensures target.Some? <==> !IsDisable(n) && Truthy(path)
    ensures target.Some? ==> target == path
  {
    if IsDisable(n) then None else GoToDetail(path)
  }

  /** The item's tooltip: the system notice for a system notification,
      otherwise whether it was already read. */
  function ItemTooltip(n: Notification): (title: string)
    ensures title == "Is notification system" <==> IsDisable(n)
    ensures !IsDisable(n) ==> (title == "Already read" <==> n.read)
    ensures title in {"Is notification system", "Already read", "Click to view"}
  {
    if IsDisable(n) then "Is notification system" else if n.read then "Already read" else "Click to view"
  }

  class Page {
    var tab: Tab
    var notifications: seq<Notification>
    var unreadCount: int

    constructor()
      ensures tab == All && notifications == [] && unreadCount == 0
    {
      tab := All;
      notifications := [];
      unreadCount := 0;
    }

    /** What the page lists now. */
    function Filtered(): seq<Notification>
      reads this
    {
      Visible(notifications, tab)
    }

    /** The fetch effect, once `getNotifications()` settles: the list is
        replaced and the count is its number of unread entries; a failure
        changes nothing. */
    method FinishFetch(outcome: Outcome<seq<Notification>>)
      modifies this
      ensures outcome.Ok? ==> notifications == outcome.value && unreadCount == |Visible(outcome.value, Unread)|
      ensures outcome.Err? ==> notifications == old(notifications) && unreadCount == old(unreadCount)
      ensures tab == old(tab)
    {
      if outcome.Ok? {
        notifications := outcome.value;
        unreadCount := |Filter(outcome.value, IsUnread)|;
      }
    }

    method SetTab(t: Tab)
      modifies this
      ensures tab == t && notifications == old(notifications) && unreadCount == old(unreadCount)
    {
      tab := t;
    }

    /** `handleMarkAsRead`; the unread count is left as it was. */
    method MarkAsRead(id: string)
      modifies this
      ensures notifications == MarkRead(old(notifications), id)
      ensures tab == old(tab) && unreadCount == old(unreadCount)
    {
      notifications := MarkRead(notifications, id);
    }

    /** `handleDelete`; the unread count is left as it was. */
    method Delete(id: string)
      modifies this
      ensures notifications == RemoveId(old(notifications), id)
      ensures tab == old(tab) && unreadCount == old(unreadCount)
    {
      notifications := RemoveId(notifications, id);
    }
  }
}
