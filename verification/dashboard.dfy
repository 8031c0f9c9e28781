/**
 * The admin dashboard's controller: one state record (the cached list, the
 * shown list, the seven-field form, the serial captured when edit mode was
 * entered, the edit flag and the two filter criteria) changed only by the
 * named handlers. Every HTTP reply and every password prompt answer is an
 * input chosen by the caller; each handler returns the requests it issued,
 * in order.
 */
module Dashboard {
  import opened Wrappers
  import opened Participants
  import ListFilter

  /** An HTTP request sent to the participants API. */
  datatype Request =
    | GetParticipants
    | PostParticipant(fields: Participant)
    | PutParticipant(serial: string, body: Body)
    | DeleteParticipant(serial: string, password: string)
    | VerifyPassword(password: string)

  /** The settlement of an awaited call: resolved with a status, or rejected. */
  datatype Settlement = Resolved(status: int) | Rejected

  /** axios rejects every non-2xx status, so a call that resolves carries a 2xx status. */
  type Reply = s: Settlement | s.Resolved? ==> 200 <= s.status < 300 witness Rejected

  /** The settlement of the awaited list request. */
  datatype ListReply = Listed(data: seq<Participant>) | ListRejected

  /** `prompt(...) || undefined`: a cancelled or empty answer becomes no password. */
  function PasswordArgument(answer: Option<string>): (r: Option<string>)
    ensures r.Some? <==> answer.Some? && answer.value != ""
    ensures r.Some? ==> r == answer
  {
    if answer.Some? && answer.value != "" then answer else None
  }

  class AdminDashboard {
    var participants: seq<Participant>
    var filteredParticipants: seq<Participant>
    var form: Participant
    var originalSerial: Option<string>
    var isEditing: bool
    var searchTerm: string
    var filterPosition: string

    /**
     * Edit mode and the captured serial are set and cleared together; no
     * handler sets a criterion, so both stay "" and the shown list is the
     * filter of the cached one.
     */
    ghost predicate Valid()
      reads this
    {
      (isEditing <==> originalSerial.Some?) &&
      searchTerm == "" && filterPosition == "" &&
      Synced()
    }

    /** The shown list is the filter of the cached one. */
    ghost predicate Synced()
      reads this
    {
      filteredParticipants == ListFilter.Filter(participants, searchTerm, filterPosition)
    }

    /** The component's initial state. */
    constructor ()
      ensures Valid() && Synced()
      ensures participants == [] && filteredParticipants == []
      ensures form == Blank && originalSerial == None && !isEditing
      ensures searchTerm == "" && filterPosition == ""
    {
      participants := [];
      filteredParticipants := [];
      form := Blank;
      originalSerial := None;
      isEditing := false;
      searchTerm := "";
      filterPosition := "";
    }

    /** fetchData: one GET; on success both lists are replaced wholesale by the response. */
    method FetchData(reply: ListReply) returns (calls: seq<Request>)
      requires Valid()
      modifies this`participants, this`filteredParticipants
      ensures Valid()
      ensures calls == [GetParticipants]
      ensures reply.Listed? ==> participants == reply.data && filteredParticipants == reply.data
      ensures reply.ListRejected? ==>
                participants == old(participants) && filteredParticipants == old(filteredParticipants)
    {
      calls := [GetParticipants];
      if reply.Listed? {
        ListFilter.FilterNoCriteria(reply.data);
        participants := reply.data;
        filteredParticipants := reply.data;
      }
    }

    /** The filter effect, run after the cached list or a criterion changes. */
    method RecomputeFilter()
      modifies this`filteredParticipants
      ensures Synced()
    {
      var term, position := searchTerm, filterPosition;
      var data := participants;
      if term != "" {
        data := ListFilter.Keep(data, p => ListFilter.MatchesSearch(p, term));
      }
      if position != "" {
        data := ListFilter.Keep(data, (p: Participant) => p.position == position);
      }
      filteredParticipants := data;
    }

    /** handleChange: exactly the named form field takes the typed value. */
    method HandleChange(f: Field, value: string)
      requires Valid()
      modifies this`form
      ensures Valid()
      ensures FieldValue(form, f) == value
      ensures forall g :: g != f ==> FieldValue(form, g) == FieldValue(old(form), g)
    {
      form := WithField(form, f, value);
    }

    /** resetForm: a blank form, no captured serial, create mode. */
    method ResetForm()
      requires Valid()
      modifies this`form, this`originalSerial, this`isEditing
      ensures Valid()
      ensures form == Blank && originalSerial == None && !isEditing
    {
      form := Blank;
      originalSerial := None;
      isEditing := false;
    }

    /**
     * submitForm: in edit mode with a non-empty captured serial, a PUT to that
     * serial carrying the form and the password; otherwise a POST of the form.
     * Only if the call resolves is the form reset and the list fetched again.
     */
    method SubmitForm(password: Option<string>, reply: Reply, refresh: ListReply) returns (calls: seq<Request>)
      requires Valid()
      modifies this`form, this`originalSerial, this`isEditing, this`participants, this`filteredParticipants
      ensures Valid()
      ensures 1 <= |calls| <= 2
      ensures old(isEditing) && old(originalSerial).Some? && old(originalSerial).value != "" ==>
                calls[0] == PutParticipant(old(originalSerial).value, Body(old(form), password))
      ensures !(old(isEditing) && old(originalSerial).Some? && old(originalSerial).value != "") ==>
                calls[0] == PostParticipant(old(form))
      ensures reply.Rejected? ==>
                |calls| == 1 &&
                form == old(form) && originalSerial == old(originalSerial) && isEditing == old(isEditing) &&
                participants == old(participants) && filteredParticipants == old(filteredParticipants)
      ensures reply.Resolved? ==>
                calls[1..] == [GetParticipants] &&
                form == Blank && originalSerial == None && !isEditing &&
                (refresh.Listed? ==> participants == refresh.data && filteredParticipants == refresh.data) &&
                (refresh.ListRejected? ==>
                   participants == old(participants) && filteredParticipants == old(filteredParticipants))
    {
      if isEditing && originalSerial.Some? && originalSerial.value != "" {
        calls := [PutParticipant(originalSerial.value, Body(form, password))];
      } else {
        calls := [PostParticipant(form)];
      }
      if reply.Resolved? {
        ResetForm();
        var fetched := FetchData(refresh);
        calls := calls + fetched;
      }
    }

    /**
     * handleEdit: an empty or cancelled prompt does nothing; otherwise the
     * password is verified, and only a 200 loads the record into the form,
     * captures its serial and enters edit mode.
     */
    method HandleEdit(p: Participant, answer: Option<string>, verify: Reply) returns (calls: seq<Request>)
      requires Valid()
      modifies this`form, this`originalSerial, this`isEditing
      ensures Valid()
      ensures answer.None? || answer.value == "" ==> calls == []
      ensures answer.Some? && answer.value != "" ==> calls == [VerifyPassword(answer.value)]
      ensures answer.Some? && answer.value != "" && verify == Resolved(200) ==>
                form == p && originalSerial == Some(p.serialNumber) && isEditing
      ensures !(answer.Some? && answer.value != "" && verify == Resolved(200)) ==>
                form == old(form) && originalSerial == old(originalSerial) && isEditing == old(isEditing)
    {
      if answer.None? || answer.value == "" {
        return [];
      }
      calls := [VerifyPassword(answer.value)];
      if verify == Resolved(200) {
        form := p;
        originalSerial := Some(p.serialNumber);
        isEditing := true;
      }
    }

    /**
     * handleDelete: an empty or cancelled prompt does nothing; otherwise one
     * DELETE of the clicked record's serial with the password, and a fetch
     * once it resolves.
     */
    method HandleDelete(p: Participant, answer: Option<string>, reply: Reply, refresh: ListReply)
      returns (calls: seq<Request>)
      requires Valid()
      modifies this`participants, this`filteredParticipants
      ensures Valid()
      ensures answer.None? || answer.value == "" ==>
                calls == [] &&
                participants == old(participants) && filteredParticipants == old(filteredParticipants)
      ensures answer.Some? && answer.value != "" && reply.Rejected? ==>
                calls == [DeleteParticipant(p.serialNumber, answer.value)] &&
                participants == old(participants) && filteredParticipants == old(filteredParticipants)
      ensures answer.Some? && answer.value != "" && reply.Resolved? ==>
                calls == [DeleteParticipant(p.serialNumber, answer.value), GetParticipants] &&
                (refresh.Listed? ==> participants == refresh.data && filteredParticipants == refresh.data) &&
                (refresh.ListRejected? ==>
                   participants == old(participants) && filteredParticipants == old(filteredParticipants))
    {
      if answer.None? || answer.value == "" {
        return [];
      }
      calls := [DeleteParticipant(p.serialNumber, answer.value)];
      if reply.Resolved? {
        var fetched := FetchData(refresh);
        calls := calls + fetched;
      }
    }
  }

  /** Since no handler sets a criterion, a valid dashboard shows its whole cached list, in server order. */
  lemma ShownIsCached(d: AdminDashboard)
    requires d.Valid()
    ensures d.filteredParticipants == d.participants
  {
    ListFilter.FilterNoCriteria(d.participants);
  }

  /**
   * The record's own serial stays the update key: enter edit mode on `r`,
   * overwrite the serial field in the form, submit; the PUT goes to
   * `r.serialNumber` and carries the edited form.
   */
  method EditKeepsOriginalKey(r: Participant, answer: string, newSerial: string, submitAnswer: Option<string>, reply: Reply)
    returns (sent: Request)
    requires r.serialNumber != "" && answer != ""
    ensures sent == PutParticipant(r.serialNumber, Body(r.(serialNumber := newSerial), PasswordArgument(submitAnswer)))
  {
    var d := new AdminDashboard();
    var verifyCalls := d.HandleEdit(r, Some(answer), Resolved(200));
    d.HandleChange(SerialNumber, newSerial);
    assert d.form == r.(serialNumber := newSerial) by {
      FieldsDetermineRecord(d.form, r.(serialNumber := newSerial));
    }
    var calls := d.SubmitForm(PasswordArgument(submitAnswer), reply, ListRejected);
    sent := calls[0];
  }

  /** A failed verification leaves a fresh dashboard in create mode with a blank form. */
  method FailedVerifyStaysBlank(r: Participant, answer: Option<string>, verify: Reply)
    returns (form: Participant, editing: bool, sent: seq<Request>)
    requires verify != Resolved(200)
    ensures form == Blank && !editing
    ensures |sent| <= 1
  {
    var d := new AdminDashboard();
    sent := d.HandleEdit(r, answer, verify);
    form, editing := d.form, d.isEditing;
  }
}
