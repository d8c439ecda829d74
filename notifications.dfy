/** The notifications screen: a list of notifications, each read or
    unread; pressing one marks it read and leads to the screen its kind
    belongs to; the header counts the unread ones. */
module Notifications {
  import opened Wrappers
  import opened Text
  import Seqs

  const Like := "like"
  const Message := "message"
  const Activity := "activity"
  const Match := "match"

  /** A notification as far as the logic goes; the avatar, the elapsed-time
      text and the activity details are only displayed. */
  datatype Notification = Notification(id: string, kind: string, userName: string, content: string, isRead: bool)

  const InitialNotifications: seq<Notification> := [
    Notification("1", Like, "Élodie", "vous a liké", false),
    Notification("2", Message, "Camille", "vous a envoyé un message", false),
    Notification("3", Activity, "Clémence", "vous invite à", false),
    Notification("4", Like, "Inès", "vous a liké", true),
    Notification("5", Match, "Manon", "vous avez matché", true),
    Notification("6", Message, "Anaïs", "vous a envoyé un message", true),
    Notification("7", Activity, "Maëlys", "vous invite à", true)
  ]

  predicate IsUnread(n: Notification) { !n.isRead }

  /** `getUnreadCount`: the number of notifications not yet read. */
  function UnreadCount(ns: seq<Notification>): nat
  {
    Seqs.Count(IsUnread, ns)
  }

  /** The number of unread notifications carrying this id. */
  function UnreadWithId(ns: seq<Notification>, id: string): (n: nat)
    ensures n <= UnreadCount(ns)
  {
    if ns == [] then 0
    else (if !ns[0].isRead && ns[0].id == id then 1 else 0) + UnreadWithId(ns[1..], id)
  }

  /** `markAsRead`'s update: the entries with this id become read; every
      other entry, every other field, the order and the length stay. */
  function MarkedRead(ns: seq<Notification>, id: string): (r: seq<Notification>)
    ensures |r| == |ns|
    ensures forall i :: 0 <= i < |r| ==>
      r[i] == if ns[i].id == id then ns[i].(isRead := true) else ns[i]
  {
    if ns == [] then []
    else [if ns[0].id == id then ns[0].(isRead := true) else ns[0]] + MarkedRead(ns[1..], id)
  }

  /** Marking read twice is marking read once. */
  lemma MarkedReadIdempotent(ns: seq<Notification>, id: string)
    ensures MarkedRead(MarkedRead(ns, id), id) == MarkedRead(ns, id)
  {
  }

  /** Marking read lowers the unread count by exactly the unread entries
      with that id, and so never raises it. */
  lemma {:induction false} MarkedReadUnreadCount(ns: seq<Notification>, id: string)
    ensures UnreadCount(MarkedRead(ns, id)) == UnreadCount(ns) - UnreadWithId(ns, id)
  {
    if ns != [] {
      MarkedReadUnreadCount(ns[1..], id);
      assert MarkedRead(ns, id)[1..] == MarkedRead(ns[1..], id);
    }
  }

  /** `getNotificationIcon` */
  function Icon(kind: string): (icon: string)
    ensures |icon| == 1
    ensures kind !in {Like, Message, Activity, Match} ==> icon == "\U{1F514}"
  {
    if kind == Like then "\U{1F496}"
    else if kind == Message then "\U{1F4AC}"
    else if kind == Activity then "\U{1F4C5}"
    else if kind == Match then "\U{26A1}"
    else "\U{1F514}"
  }

  /** The four kinds have four different icons, none of them the default bell. */
  lemma IconsDistinct()
    ensures |{Icon(Like), Icon(Message), Icon(Activity), Icon(Match), Icon("")}| == 5
  {
    assert Icon(Like) != Icon(Message) && Icon(Like) != Icon(Activity) && Icon(Like) != Icon(Match);
    assert Icon(Message) != Icon(Activity) && Icon(Message) != Icon(Match) && Icon(Activity) != Icon(Match);
  }

  /** The navigation of `handleNotificationPress`: messages and activity
      invitations open the messages screen, likes and matches the profiles;
      any other kind stays put. */
  function RouteFor(kind: string): (route: Option<string>)
    ensures route == Some("/messages") <==> kind == Message || kind == Activity
    ensures route == Some("/profiles") <==> kind == Like || kind == Match
    ensures route.None? <==> kind !in {Like, Message, Activity, Match}
  {
    if kind == Message || kind == Activity then Some("/messages")
    else if kind == Like || kind == Match then Some("/profiles")
    else None
  }

  /** The header subtitle: "<n> nouvelle(s) notification(s)". */
  function Subtitle(unread: nat): string
  {
    var plural := if unread != 1 then "s" else "";
    NatToString(unread) + " nouvelle" + plural + " notification" + plural
  }

  /** Both words take their plural mark exactly when the count is not one,
      and the count can be read back from the front. */
  lemma SubtitlePlural(unread: nat)
    ensures var r := Subtitle(unread);
      var k := |NatToString(unread)|;
      && r[..k] == NatToString(unread) && DecimalValue(r[..k]) == unread
      && (unread == 1 <==> r[k..] == " nouvelle notification")
      && (unread != 1 <==> r[k..] == " nouvelles notifications")
  {
    var d := NatToString(unread);
    var tail := if unread != 1 then " nouvelles notifications" else " nouvelle notification";
    var plural := if unread != 1 then "s" else "";
    assert " nouvelle" + plural + " notification" + plural == tail;
    assert Subtitle(unread) == d + tail;
    assert (d + tail)[..|d|] == d;
    assert (d + tail)[|d|..] == tail;
    assert |" nouvelles notifications"| != |" nouvelle notification"|;
  }

  lemma InitialUnread()
    ensures |InitialNotifications| == 7 && UnreadCount(InitialNotifications) == 3
  {
    var ns := InitialNotifications;
    var rest := ns[3..];
    assert forall i :: 0 <= i < |rest| ==> rest[i].isRead;
    assert UnreadCount(rest) == 0;
    assert ns[2..][1..] == rest && ns[2..][0] == ns[2];
    assert UnreadCount(ns[2..]) == 1;
    assert ns[1..][1..] == ns[2..] && ns[1..][0] == ns[1];
    assert UnreadCount(ns[1..]) == 2;
  }

  class NotificationsScreen {
    var notifications: seq<Notification>

    constructor ()
      ensures notifications == InitialNotifications
    {
      notifications := InitialNotifications;
    }

    /** `markAsRead` */
    method MarkAsRead(id: string)
      modifies this
      ensures notifications == MarkedRead(old(notifications), id)
      ensures UnreadCount(notifications) <= UnreadCount(old(notifications))
    {
      MarkedReadUnreadCount(notifications, id);
      notifications := MarkedRead(notifications, id);
    }

    /** `handleNotificationPress`: mark the pressed notification read, then
        report where its kind navigates to. */
    method Press(pressed: Notification) returns (route: Option<string>)
      modifies this
      ensures notifications == MarkedRead(old(notifications), pressed.id)
      ensures forall i :: 0 <= i < |notifications| && notifications[i].id == pressed.id ==> notifications[i].isRead
      ensures route == RouteFor(pressed.kind)
    {
      MarkAsRead(pressed.id);
      route := RouteFor(pressed.kind);
    }
  }
}
