/** The contact form's submit handler: a gate on the four fields, the request
    handed to the e-mail delivery service, and the notifications shown. */
module ContactForm {

  /** The values of the form's name, e-mail, subject and message fields. */
  datatype Form = Form(name: string, email: string, subject: string, message: string)

  /** The colour variant of a notification. */
  datatype Kind = Success | Error | Info

  datatype Notice = Notice(text: string, kind: Kind)

  /** The template parameters sent to the delivery service. */
  datatype Payload = Payload(fromName: string, fromEmail: string, subject: string, message: string, toEmail: string)

  datatype Request = Request(service: string, template: string, payload: Payload)

  /** What the handler does, in order: show a notification or call the service. */
  datatype Effect = Notify(notice: Notice) | Send(request: Request)

  /** How the delivery service's promise settles. */
  datatype Delivery = Delivered | Failed

  const ServiceId: string := "service_id"
  const TemplateId: string := "template_id"
  const Recipient: string := "meelanwangchhuk219@gmail.com"

  const MissingFields: Notice := Notice("Please fill in all fields", Error)
  const Sending: Notice := Notice("Sending message...", Info)
  const Sent: Notice := Notice("Message sent successfully!", Success)
  const SendFailed: Notice := Notice("Failed to send message. Please try again.", Error)

  /** The form after reset(): every field back to its empty default. */
  const Blank: Form := Form("", "", "", "")

  /** No field is empty (an empty string is the only falsy string). */
  predicate Filled(f: Form)
  {
    f.name != "" && f.email != "" && f.subject != "" && f.message != ""
  }

  /** The calls to the delivery service among `effects`, in order. */
  function Sends(effects: seq<Effect>): seq<Request>
  {
    if effects == [] then []
    else (if effects[0].Send? then [effects[0].request] else []) + Sends(effects[1..])
  }

  /** The notifications among `effects`, in order. */
  function Notices(effects: seq<Effect>): seq<Notice>
  {
    if effects == [] then []
    else (if effects[0].Notify? then [effects[0].notice] else []) + Notices(effects[1..])
  }

  /** The submit handler, up to the point where it waits for the service.
      `libraryLoaded` says whether the delivery library's script has loaded:
      when it has not, the call to it throws and the handler stops there, with
      no request made and nothing shown. The empty-field check runs before
      that call and does not depend on the library. */
  function OnSubmit(f: Form, libraryLoaded: bool): (effects: seq<Effect>)
    ensures |Sends(effects)| == if Filled(f) && libraryLoaded then 1 else 0
    ensures |Notices(effects)| == if Filled(f) && !libraryLoaded then 0 else 1
  {
    if f.name == "" || f.email == "" || f.subject == "" || f.message == "" then
      [Notify(MissingFields)]
    else if !libraryLoaded then
      []
    else
      var sent := [Send(Request(ServiceId, TemplateId, Payload(f.name, f.email, f.subject, f.message, Recipient))),
                   Notify(Sending)];
      assert sent[1..] == [Notify(Sending)] && sent[1..][1..] == [];
      assert Sends(sent[1..]) == [] && Notices(sent[1..]) == [Sending];
      sent
  }

  /** The promise's callbacks: the notification shown and the form left behind. */
  function OnDelivery(outcome: Delivery, f: Form): (r: (Notice, Form))
    ensures r.0.kind == (if outcome == Delivered then Success else Error)
    ensures r.1 == (if outcome == Delivered then Blank else f)
  {
    match outcome
    case Delivered => (Sent, Blank)
    case Failed => (SendFailed, f)
  }

  /** A form with an empty field gets one error notice and no call to the service. */
  lemma RejectsIncomplete(f: Form, libraryLoaded: bool)
    requires f.name == "" || f.email == "" || f.subject == "" || f.message == ""
    ensures Sends(OnSubmit(f, libraryLoaded)) == []
    ensures Notices(OnSubmit(f, libraryLoaded)) == [MissingFields] && MissingFields.kind == Error
  {
  }

  /** A filled form is sent once, carrying exactly its four fields and the
      fixed recipient, before the one "in progress" notice. */
  lemma SendsFilled(f: Form)
    requires Filled(f)
    ensures Sends(OnSubmit(f, true)) == [Request(ServiceId, TemplateId, Payload(f.name, f.email, f.subject, f.message, Recipient))]
    ensures Notices(OnSubmit(f, true)) == [Sending] && Sending.kind == Info
    ensures OnSubmit(f, true)[0].Send?
  {
  }

  /** A filled form submitted before the library has loaded: the handler
      throws at the call, so no request is made and no notice is shown. */
  lemma FilledBeforeLibraryLoads(f: Form)
    requires Filled(f)
    ensures OnSubmit(f, false) == []
    ensures Sends(OnSubmit(f, false)) == [] && Notices(OnSubmit(f, false)) == []
  {
  }

  /** The whole exchange for a filled form: one "in progress" notice, then one
      terminal notice whose kind follows the service's outcome; the fields
      survive a failure so that the user can retry. */
  lemma FilledSubmission(f: Form, outcome: Delivery)
    requires Filled(f)
    ensures Notices(OnSubmit(f, true) + [Notify(OnDelivery(outcome, f).0)]) ==
              [Sending, OnDelivery(outcome, f).0]
    ensures OnDelivery(outcome, f).0.kind != Info
    ensures outcome == Failed ==> OnDelivery(outcome, f).1 == f
  {
    SendsFilled(f);
    NoticesAppend(OnSubmit(f, true), [Notify(OnDelivery(outcome, f).0)]);
  }

  lemma {:induction false} NoticesAppend(a: seq<Effect>, b: seq<Effect>)
    ensures Notices(a + b) == Notices(a) + Notices(b)
  {
    if a != [] {
      assert (a + b)[1..] == a[1..] + b;
      NoticesAppend(a[1..], b);
    } else {
      assert a + b == b;
    }
  }
}
