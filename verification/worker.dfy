/** invite_worker and the result store it appends to. One run of the
    pipeline appends at most one {email, link} record; the store is the
    list `g.invitation_links` is meant to be, modelled as a class whose
    sequence field only ever grows at its end. */
module Worker {
  import opened Wrappers
  import opened PyJson
  import opened Registration

  /** The placeholder recorded when no invitation URL came back. */
  const LinkError: string := "Error: Could not retrieve link"

  /** One `{'email': ..., 'link': ...}` record. */
  datatype Invitation = Invitation(email: Json, link: Json)

  /** The record one run appends (None: nothing) and the calls it issued. */
  datatype Run = Run(record: Option<Invitation>, calls: seq<Call>)

  /** The registration step ended with a usable tester id. */
  predicate Registered(reg: AddResult) {
    reg.tester.Returned? && Truthy(reg.tester.value)
  }

  /** The decision invite_worker makes, given the allocated `email` (what
      create_temp_email returned) and the responses to the lookup, create,
      enrol and tester-detail calls. */
  function InviteOutcome(email: Json, groupId: string, lookup: Json, create: Json, enrol: Json, detail: Json): (run: Run)
    // no email: the run stops before any API call
    ensures !Truthy(email) ==> run == Run(None, [])
    // a record is appended exactly when an email was allocated, the tester
    // was registered, and reading the link did not raise
    ensures run.record.Some? <==>
              Truthy(email) && Registered(AddTesterToGroup(email, groupId, lookup, create, enrol))
              && GetInvitationLink(detail).Returned?
    // the record carries that email and either the URL or the placeholder
    ensures run.record.Some? ==>
              && run.record.value.email == email
              && run.record.value.link == (if InviteUrl(detail).Some? && Truthy(InviteUrl(detail).value)
                                           then InviteUrl(detail).value else Str(LinkError))
              && Truthy(run.record.value.link)
    // the link is fetched for the registered tester, after registration
    ensures Truthy(email) ==>
              var reg := AddTesterToGroup(email, groupId, lookup, create, enrol);
              run.calls == reg.calls + (if Registered(reg) then [FetchInviteUrl(reg.tester.value)] else [])
  {
    if !Truthy(email) then Run(None, [])
    else
      var reg := AddTesterToGroup(email, groupId, lookup, create, enrol);
      match reg.tester
      case Raised => Run(None, reg.calls)
      case Returned(testerId) =>
        if !Truthy(testerId) then Run(None, reg.calls)
        else
          var calls := reg.calls + [FetchInviteUrl(testerId)];
          match GetInvitationLink(detail)
          case Raised => Run(None, calls)
          case Returned(link) =>
            if Truthy(link) then Run(Some(Invitation(email, link)), calls)
            else Run(Some(Invitation(email, Str(LinkError))), calls)
  }

  /** The list of invitation records `g.invitation_links` is meant to be. */
  class ResultStore {
    var invitations: seq<Invitation>

    /** The list starts empty. */
    constructor ()
      ensures invitations == []
    {
      invitations := [];
    }

    /** `invitation_links.append(record)`. */
    method Append(record: Invitation)
      modifies this
      ensures invitations == old(invitations) + [record]
    {
      invitations := invitations + [record];
    }
  }

  /** invite_worker: one run of the pipeline against the store. An exception
      escaping registration or link retrieval ends the run with nothing
      appended. */
  method InviteWorker(store: ResultStore, email: Json, groupId: string,
                      lookup: Json, create: Json, enrol: Json, detail: Json)
    returns (ghost calls: seq<Call>)
    modifies store
    ensures var run := InviteOutcome(email, groupId, lookup, create, enrol, detail);
            calls == run.calls
            && store.invitations == old(store.invitations) + (if run.record.Some? then [run.record.value] else [])
  {
    calls := [];
    if !Truthy(email) {
      return;
    }
    var reg := AddTesterToGroup(email, groupId, lookup, create, enrol);
    calls := reg.calls;
    if reg.tester.Raised? {
      return;
    }
    var testerId := reg.tester.value;
    if !Truthy(testerId) {
      return;
    }
    calls := calls + [FetchInviteUrl(testerId)];
    var link := GetInvitationLink(detail);
    if link.Raised? {
      return;
    }
    if Truthy(link.value) {
      store.Append(Invitation(email, link.value));
    } else {
      store.Append(Invitation(email, Str(LinkError)));
    }
  }

  /** A run that registers a new tester: the lookup lists nobody, the create
      answers with id "T1", the enrol answers with a truthy body and the
      detail call carries the URL. The store gains exactly that record. */
  lemma NewTesterRecorded(groupId: string, enrol: Json)
    requires Truthy(enrol)
    ensures var email := Str("a@x.com");
            var url := Str("https://testflight.example/invite/T1");
            var create := Obj(map["data" := Obj(map["id" := Str("T1")])]);
            var detail := Obj(map["data" := Obj(map["attributes" := Obj(map["inviteUrl" := url])])]);
            InviteOutcome(email, groupId, Obj(map["data" := Arr([])]), create, enrol, detail)
            == Run(Some(Invitation(email, url)),
                   [LookupTester(email, LookupLimit), CreateTester(email, FirstName, LastName),
                    EnrolTester(groupId, Str("T1")), FetchInviteUrl(Str("T1"))])
  {
    var create := Obj(map["data" := Obj(map["id" := Str("T1")])]);
    assert Contains(create, "data") == Returned(true);
  }

  /** When the enrol call's api_request returns None, which is what a
      204 No Content answer leads to, the new tester exists remotely but
      the run appends nothing. */
  lemma EnrolWithoutBodyRecordsNothing(groupId: string, detail: Json)
    ensures var email := Str("a@x.com");
            var create := Obj(map["data" := Obj(map["id" := Str("T1")])]);
            var run := InviteOutcome(email, groupId, Null, create, Null, detail);
            run.record.None?
            && run.calls == [LookupTester(email, LookupLimit), CreateTester(email, FirstName, LastName),
                             EnrolTester(groupId, Str("T1"))]
  {
    var create := Obj(map["data" := Obj(map["id" := Str("T1")])]);
    assert Contains(create, "data") == Returned(true);
  }

  /** A run whose lookup lists tester "T2": no create and no enrol are
      issued, and the link is fetched for "T2" directly. */
  lemma ExistingTesterSkipsCreate(groupId: string, create: Json, enrol: Json, detail: Json)
    ensures var email := Str("a@x.com");
            var lookup := Obj(map["data" := Arr([Obj(map["id" := Str("T2")])])]);
            InviteOutcome(email, groupId, lookup, create, enrol, detail).calls
            == [LookupTester(email, LookupLimit), FetchInviteUrl(Str("T2"))]
  {
  }
}
