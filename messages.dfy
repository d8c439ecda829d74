/** The inbox screen: messages and likes that can be accepted, postponed
    or declined, activity invitations that can be accepted or declined,
    the unread badge, and the settings drawer with its daily limits. */
module Messages {
  import opened Wrappers
  import opened Text
  import opened Toast
  import Seqs

  datatype MessageAction = Accept | Later | Decline
  datatype InvitationAction = AcceptInvitation | DeclineInvitation
  datatype Tab = MessagesTab | InvitationsTab

  /** A message or like; `actions` is an optional field. The avatar and
      elapsed-time text are only displayed. */
  datatype Message = Message(id: string, name: string, kind: string, content: string, isRead: bool,
                             actions: Option<seq<MessageAction>>)

  /** An activity invitation; `isAccepted` and `acceptedDate` are optional
      fields, and the date is an opaque text. */
  datatype Invitation = Invitation(id: string, inviterName: string, activityTitle: string,
                                   isAccepted: Option<bool>, acceptedDate: Option<string>)

  const InvitationRefused := "Invitation refusée"
  const InvitationAccepted := "Invitation acceptée"
  const SettingsSaved := "Paramètres sauvegardés avec succès"
  const ProcessAllToast := "Invitat. d'Élodie supprimée"
  /** The badge adds a fixed ten to the real unread count. */
  const BadgeOffset := 10

  const InitialMessages: seq<Message> := [
    Message("1", "Camille", "message", "Salut ! Je vois que tu es de Toulouse... C'est pas si loin finalement", false, Some([Accept, Later, Decline])),
    Message("2", "Élodie", "like", "Vous a liké.\nSouhaitez-vous engager la conversation ?", false, Some([Later, Decline])),
    Message("3", "Manon", "message", "Bon, j'ai relu ton profil et je confirme : t'as l'air trop cool...", false, Some([Later, Decline])),
    Message("4", "Anaïs", "message", "J'ai eu une journée de dingue, mais j'voulais quand même t'écrire un petit...", false, Some([Later, Decline]))
  ]

  const InitialInvitations: seq<Invitation> := [
    Invitation("1", "Clémence", "Running Afternoon", Some(true), Some("18/10")),
    Invitation("2", "Inès", "Technique, respiration et objectifs accessibles", Some(false), None),
    Invitation("3", "Maëlys", "Cours de Yoga en plein air", Some(false), None)
  ]

  function AcceptToast(userName: string): string { "Discussion avec " + userName + " engagée" }
  function DeclineToast(userName: string): string { "Invitat. de " + userName + " supprimée" }

  /** `prev.filter(msg => msg.id !== messageId)` */
  function WithoutMessage(ms: seq<Message>, id: string): (r: seq<Message>)
    ensures |r| <= |ms|
    ensures forall i :: 0 <= i < |r| ==> r[i].id != id && r[i] in ms
    ensures forall i :: 0 <= i < |ms| && ms[i].id != id ==> ms[i] in r
  {
    Seqs.Filter((m: Message) => m.id != id, ms)
  }

  /** Removing a message keeps the others in their order. */
  lemma WithoutMessageKeepsOrder(a: seq<Message>, b: seq<Message>, id: string)
    ensures WithoutMessage(a + b, id) == WithoutMessage(a, id) + WithoutMessage(b, id)
  {
    Seqs.FilterAppend((m: Message) => m.id != id, a, b);
  }

  /** `prev.filter(inv => inv.id !== invitationId)` */
  function WithoutInvitation(invs: seq<Invitation>, id: string): (r: seq<Invitation>)
    ensures |r| <= |invs|
    ensures forall i :: 0 <= i < |r| ==> r[i].id != id && r[i] in invs
    ensures forall i :: 0 <= i < |invs| && invs[i].id != id ==> invs[i] in r
  {
    Seqs.Filter((inv: Invitation) => inv.id != id, invs)
  }

  /** The accept branch of `handleInvitationAction`: the invitations with
      this id become accepted on `today`; nothing else changes. */
  function AcceptedOn(invs: seq<Invitation>, id: string, today: string): (r: seq<Invitation>)
    ensures |r| == |invs|
    ensures forall i :: 0 <= i < |r| ==>
      r[i] == if invs[i].id == id then invs[i].(isAccepted := Some(true), acceptedDate := Some(today)) else invs[i]
  {
    if invs == [] then []
    else
      var head := if invs[0].id == id then invs[0].(isAccepted := Some(true), acceptedDate := Some(today)) else invs[0];
      [head] + AcceptedOn(invs[1..], id, today)
  }

  predicate IsUnread(m: Message) { !m.isRead }

  /** The number of messages not yet read. */
  function UnreadMessages(ms: seq<Message>): nat
  {
    Seqs.Count(IsUnread, ms)
  }

  /** `getUnreadMessagesCount`: the unread count plus ten. */
  function UnreadBadge(ms: seq<Message>): (n: nat)
    ensures BadgeOffset <= n <= |ms| + BadgeOffset
    ensures n == BadgeOffset <==> forall i :: 0 <= i < |ms| ==> ms[i].isRead
  {
    UnreadMessages(ms) + BadgeOffset
  }

  /** The invitations tab count: the decimal count padded with zeros to
      two characters. */
  function InvitationsLabel(count: nat): string
  {
    PadStart2(NatToString(count))
  }

  /** The label has at least two digits and reads back as the count. */
  lemma InvitationsLabelValue(count: nat)
    ensures var r := InvitationsLabel(count);
      && 2 <= |r| && AllDigits(r) && DecimalValue(r) == count
      && (count < 10 ==> r == ['0', NatToString(count)[0]])
      && (count >= 10 ==> r == NatToString(count))
  {
    var d := NatToString(count);
    if count < 10 {
      NatToStringBelowHundred(count);
      var r := "0" + d;
      assert r[..1] == "0" && r[1..] == d;
      assert DecimalValue(r[..1]) == 0;
    } else {
      NatToStringFromTen(count);
    }
  }

  lemma NatToStringFromTen(n: nat)
    requires n >= 10
    ensures |NatToString(n)| >= 2
  {
  }

  /** Removing a message never raises the badge. */
  lemma {:induction false} WithoutMessageBadge(ms: seq<Message>, id: string)
    ensures UnreadBadge(WithoutMessage(ms, id)) <= UnreadBadge(ms)
  {
    if ms != [] {
      WithoutMessageBadge(ms[1..], id);
    }
  }

  lemma InitialInbox()
    ensures |InitialMessages| == 4 && UnreadBadge(InitialMessages) == 14
    ensures InvitationsLabel(|InitialInvitations|) == "03"
  {
    var ms := InitialMessages;
    assert ms[3..][1..] == [];
    assert ms[2..][1..] == ms[3..] && ms[1..][1..] == ms[2..];
  }

  class MessagesScreen {
    var messages: seq<Message>
    var invitations: seq<Invitation>
    var activeTab: Tab
    var toast: ToastState
    var settingsVisible: bool
    var maxMessagesPerDay: nat
    var maxInvitationsPerDay: nat
    var vacationMode: bool

    constructor ()
      ensures messages == InitialMessages && invitations == InitialInvitations
      ensures activeTab == MessagesTab && toast == Hidden && !settingsVisible
      ensures maxMessagesPerDay == 3 && maxInvitationsPerDay == 5 && !vacationMode
    {
      messages := InitialMessages;
      invitations := InitialInvitations;
      activeTab := MessagesTab;
      toast := Hidden;
      settingsVisible := false;
      maxMessagesPerDay := 3;
      maxInvitationsPerDay := 5;
      vacationMode := false;
    }

    /** `handleAction`: accept and decline remove the message and show a
        success, respectively error, toast naming the user; "later" changes
        nothing. */
    method HandleAction(id: string, action: MessageAction, userName: string)
      modifies this
      ensures invitations == old(invitations) && activeTab == old(activeTab)
      ensures settingsVisible == old(settingsVisible) && maxMessagesPerDay == old(maxMessagesPerDay)
      ensures maxInvitationsPerDay == old(maxInvitationsPerDay) && vacationMode == old(vacationMode)
      ensures action == Later ==> messages == old(messages) && toast == old(toast)
      ensures action != Later ==> messages == WithoutMessage(old(messages), id)
      ensures action == Accept ==> toast == Shown(AcceptToast(userName), Success)
      ensures action == Decline ==> toast == Shown(DeclineToast(userName), Error)
    {
      match action
      case Accept =>
        toast := Shown(AcceptToast(userName), Success);
        messages := WithoutMessage(messages, id);
      case Decline =>
        toast := Shown(DeclineToast(userName), Error);
        messages := WithoutMessage(messages, id);
      case Later =>
    }

    /** `handleProcessAllMessages`: only a fixed error toast. */
    method ProcessAllMessages()
      modifies this
      ensures messages == old(messages) && invitations == old(invitations)
      ensures settingsVisible == old(settingsVisible) && activeTab == old(activeTab)
      ensures toast == Shown(ProcessAllToast, Error)
      ensures maxMessagesPerDay == old(maxMessagesPerDay) && maxInvitationsPerDay == old(maxInvitationsPerDay)
      ensures vacationMode == old(vacationMode)
    {
      toast := Shown(ProcessAllToast, Error);
    }

    /** `handleInvitationAction`: decline removes the invitation with an
        error toast; accept marks it accepted on `today` with a success toast. */
    method HandleInvitationAction(id: string, action: InvitationAction, today: string)
      modifies this
      ensures messages == old(messages) && activeTab == old(activeTab) && settingsVisible == old(settingsVisible)
      ensures maxMessagesPerDay == old(maxMessagesPerDay) && maxInvitationsPerDay == old(maxInvitationsPerDay)
      ensures vacationMode == old(vacationMode)
      ensures action == DeclineInvitation ==>
        invitations == WithoutInvitation(old(invitations), id) && toast == Shown(InvitationRefused, Error)
      ensures action == AcceptInvitation ==>
        invitations == AcceptedOn(old(invitations), id, today) && toast == Shown(InvitationAccepted, Success)
    {
      if action == DeclineInvitation {
        invitations := WithoutInvitation(invitations, id);
        toast := Shown(InvitationRefused, Error);
      } else {
        invitations := AcceptedOn(invitations, id, today);
        toast := Shown(InvitationAccepted, Success);
      }
    }

    method SelectTab(tab: Tab)
      modifies this
      ensures activeTab == tab && messages == old(messages) && invitations == old(invitations)
      ensures toast == old(toast) && settingsVisible == old(settingsVisible)
      ensures maxMessagesPerDay == old(maxMessagesPerDay) && maxInvitationsPerDay == old(maxInvitationsPerDay)
      ensures vacationMode == old(vacationMode)
    {
      activeTab := tab;
    }

    method OpenSettings()
      modifies this
      ensures settingsVisible && messages == old(messages) && invitations == old(invitations) && toast == old(toast)
      ensures activeTab == old(activeTab)
      ensures maxMessagesPerDay == old(maxMessagesPerDay) && maxInvitationsPerDay == old(maxInvitationsPerDay)
      ensures vacationMode == old(vacationMode)
    {
      settingsVisible := true;
    }

    method CloseSettings()
      modifies this
      ensures !settingsVisible && messages == old(messages) && invitations == old(invitations) && toast == old(toast)
      ensures activeTab == old(activeTab)
      ensures maxMessagesPerDay == old(maxMessagesPerDay) && maxInvitationsPerDay == old(maxInvitationsPerDay)
      ensures vacationMode == old(vacationMode)
    {
      settingsVisible := false;
    }

    /** `handleSaveSettings`: a success toast and the drawer closes; the
        limits and the vacation switch keep their values. */
    method SaveSettings()
      modifies this
      ensures !settingsVisible && toast == Shown(SettingsSaved, Success)
      ensures maxMessagesPerDay == old(maxMessagesPerDay) && maxInvitationsPerDay == old(maxInvitationsPerDay)
      ensures vacationMode == old(vacationMode)
      ensures messages == old(messages) && invitations == old(invitations) && activeTab == old(activeTab)
    {
      toast := Shown(SettingsSaved, Success);
      settingsVisible := false;
    }
  }
}
