/** The support contact form: a contact reason (fixed to e-mail), a name
    and a message; submitting requires both texts to be non-blank, then
    confirms with a toast and clears them. */
module Support {
  import opened Wrappers
  import opened Text
  import opened Toast

  /** A `ContactOption`; its `label` is called `caption` here. */
  datatype ContactOption = ContactOption(caption: string, value: string)

  const ContactReasons: seq<ContactOption> := [
    ContactOption("Email", "email"),
    ContactOption("Problème technique", "technical"),
    ContactOption("Signalement", "report"),
    ContactOption("Suggestion", "suggestion"),
    ContactOption("Autre", "other")
  ]

  const InitialReason := "email"
  const MessageSent := "Message envoyé avec succès !"

  /** Index `i` holds the first option with this value. */
  predicate FirstWithValue(reasons: seq<ContactOption>, value: string, i: int)
  {
    0 <= i < |reasons| && reasons[i].value == value && forall k :: 0 <= k < i ==> reasons[k].value != value
  }

  /** `contactReasons.find(reason => reason.value === value)?.label` */
  function ReasonLabel(reasons: seq<ContactOption>, value: string): (r: Option<string>)
    ensures r.None? <==> forall i :: 0 <= i < |reasons| ==> reasons[i].value != value
    ensures r.Some? ==> exists i :: FirstWithValue(reasons, value, i) && reasons[i].caption == r.value
  {
    if reasons == [] then None
    else if reasons[0].value == value then Some(reasons[0].caption)
    else
      var r := ReasonLabel(reasons[1..], value);
      if r.Some? then
        var i :| FirstWithValue(reasons[1..], value, i) && reasons[1..][i].caption == r.value;
        assert FirstWithValue(reasons, value, i + 1) && reasons[i + 1] == reasons[1..][i];
        r
      else r
  }

  /** Every reason value of the form has its own label. */
  lemma ReasonLabels()
    ensures ReasonLabel(ContactReasons, "email") == Some("Email")
    ensures ReasonLabel(ContactReasons, "technical") == Some("Problème technique")
    ensures ReasonLabel(ContactReasons, "report") == Some("Signalement")
    ensures ReasonLabel(ContactReasons, "suggestion") == Some("Suggestion")
    ensures ReasonLabel(ContactReasons, "other") == Some("Autre")
    ensures ReasonLabel(ContactReasons, "") == None
  {
  }

  /** `handleSubmit`'s guard: both texts contain something besides whitespace. */
  predicate SubmitAccepted(name: string, message: string)
  {
    Trim(name) != "" && Trim(message) != ""
  }

  /** The guard rejects exactly a name or a message made only of whitespace
      (the empty text included). */
  lemma SubmitAcceptedIff(name: string, message: string)
    ensures SubmitAccepted(name, message) <==>
      (exists i :: 0 <= i < |name| && !IsJsWhitespace(name[i]))
      && (exists i :: 0 <= i < |message| && !IsJsWhitespace(message[i]))
  {
    TrimEmptyIff(name);
    TrimEmptyIff(message);
  }

  class SupportScreen {
    var selectedReason: string
    var name: string
    var message: string
    var toast: ToastState

    /** No handler changes the reason, so it stays e-mail. */
    ghost predicate Valid()
      reads this
    {
      selectedReason == InitialReason
    }

    constructor ()
      ensures Valid() && name == "" && message == "" && toast == Hidden
    {
      selectedReason := InitialReason;
      name := "";
      message := "";
      toast := Hidden;
    }

    /** The reason shown in the dropdown. */
    method ShownReason() returns (shown: Option<string>)
      requires Valid()
      ensures shown == ReasonLabel(ContactReasons, selectedReason) && shown == Some("Email")
    {
      ReasonLabels();
      shown := ReasonLabel(ContactReasons, selectedReason);
    }

    method SetName(text: string)
      modifies this
      ensures name == text && message == old(message) && toast == old(toast)
      ensures selectedReason == old(selectedReason)
    {
      name := text;
    }

    method SetMessage(text: string)
      modifies this
      ensures message == text && name == old(name) && toast == old(toast)
      ensures selectedReason == old(selectedReason)
    {
      message := text;
    }

    /** `handleSubmit`: with a blank name or message only the error alert
        shows and nothing changes; otherwise the success toast shows and
        both texts are cleared. */
    method Submit() returns (sent: bool)
      modifies this
      ensures sent <==> SubmitAccepted(old(name), old(message))
      ensures selectedReason == old(selectedReason)
      ensures !sent ==> name == old(name) && message == old(message) && toast == old(toast)
      ensures sent ==> name == "" && message == "" && toast == Shown(MessageSent, Success)
    {
      if Trim(name) == "" || Trim(message) == "" {
        return false;
      }
      toast := Shown(MessageSent, Success);
      name := "";
      message := "";
      return true;
    }
  }
}
