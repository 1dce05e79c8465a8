/**
 * `StudentDataLoader.load_student` and `load_all_students`
 * (poc/before/load_students.py), with the API calls replaced by an oracle.
 */
module Loader {
  import opened Wrappers
  import opened StudentRecords
  import opened Payloads

  /** The two resources the loader posts to. */
  datatype Endpoint = Students | StudentSchoolAssociations
  {
    /** The path passed to `make_request`. */
    function Path(): string
    {
      match this
      case Students => "/ed-fi/students"
      case StudentSchoolAssociations => "/ed-fi/studentSchoolAssociations"
    }
  }

  /** One `make_request(endpoint, 'POST', body)` call issued through the API client. */
  datatype Request = Request(endpoint: Endpoint, body: Payload)

  /**
   * The API as the loader sees it: whether a `POST` of the request succeeds,
   * given every request the loader issued before it. `false` stands for any
   * exception `make_request` raises.
   */
  type Server = (seq<Request>, Request) -> bool

  /** Why `load_student` raised. */
  datatype LoadError = PostRejected(endpoint: Endpoint) | InvalidPayload(cause: PayloadError)

  /** The requests one call issued, in order, and whether it raised. */
  datatype Step = Step(sent: seq<Request>, outcome: Outcome<LoadError>)

  /** `load_student`: post the student, then build and post the association. */
  function LoadStudent(server: Server, history: seq<Request>, s: StudentRecord, schoolId: string, conv: Conversions): (st: Step)
    ensures 1 <= |st.sent| <= 2
  {
    var studentRequest := Request(Students, StudentPayload(s));
    if !server(history, studentRequest) then
      Step([studentRequest], Fail(PostRejected(Students)))
    else
      match AssociationPayload(s, schoolId, conv)
      case Failure(e) => Step([studentRequest], Fail(InvalidPayload(e)))
      case Success(body) =>
        var associationRequest := Request(StudentSchoolAssociations, body);
        if server(history + [studentRequest], associationRequest) then
          Step([studentRequest, associationRequest], Pass)
        else
          Step([studentRequest, associationRequest], Fail(PostRejected(StudentSchoolAssociations)))
  }

  /**
   * The student is posted first; the association is built and posted only
   * after that succeeded; the call passes iff both posts succeed, and
   * otherwise raises the error of the step that failed.
   */
  lemma LoadStudentSteps(server: Server, history: seq<Request>, s: StudentRecord, schoolId: string, conv: Conversions)
    ensures var st := LoadStudent(server, history, s, schoolId, conv);
      1 <= |st.sent| <= 2
    ensures var st := LoadStudent(server, history, s, schoolId, conv);
      st.sent[0] == Request(Students, StudentPayload(s)) && st.sent[0].endpoint.Path() == "/ed-fi/students"
    ensures var st := LoadStudent(server, history, s, schoolId, conv);
      !server(history, st.sent[0]) ==> st == Step([st.sent[0]], Fail(PostRejected(Students)))
    ensures var st := LoadStudent(server, history, s, schoolId, conv);
      |st.sent| == 2 <==> server(history, st.sent[0]) && AssociationPayload(s, schoolId, conv).Success?
    ensures var st := LoadStudent(server, history, s, schoolId, conv);
      |st.sent| == 2 ==> st.sent[1] == Request(StudentSchoolAssociations, AssociationPayload(s, schoolId, conv).value)
                         && st.sent[1].endpoint.Path() == "/ed-fi/studentSchoolAssociations"
    ensures var st := LoadStudent(server, history, s, schoolId, conv);
      server(history, st.sent[0]) && AssociationPayload(s, schoolId, conv).Failure? ==>
              st.outcome == Fail(InvalidPayload(AssociationPayload(s, schoolId, conv).error))
    ensures var st := LoadStudent(server, history, s, schoolId, conv);
      st.outcome.Pass? <==> |st.sent| == 2 && server(history + [st.sent[0]], st.sent[1])
    ensures var st := LoadStudent(server, history, s, schoolId, conv);
      |st.sent| == 2 && st.outcome.Fail? ==> st.outcome == Fail(PostRejected(StudentSchoolAssociations))
  {
  }

  /** Every request a batch issued, and each record's outcome in file order. */
  datatype Batch = Batch(sent: seq<Request>, outcomes: seq<Outcome<LoadError>>)

  /** Loading one record, given the requests issued before it. */
  type Loading = (seq<Request>, StudentRecord) -> Step

  /** The loop of `load_all_students`: load each record in turn, whatever the earlier ones did. */
  function LoadEach(load: Loading, history: seq<Request>, students: seq<StudentRecord>): (b: Batch)
    ensures |b.outcomes| == |students|
    decreases |students|
  {
    if students == [] then Batch([], [])
    else
      var st := load(history, students[0]);
      var rest := LoadEach(load, history + st.sent, students[1..]);
      Batch(st.sent + rest.sent, [st.outcome] + rest.outcomes)
  }

  /** `load_student` bound to one API client. */
  function LoaderOf(server: Server, schoolId: string, conv: Conversions): Loading
  {
    (h: seq<Request>, s: StudentRecord) => LoadStudent(server, h, s, schoolId, conv)
  }

  /** The batch `load_all_students` runs over the records read from the file. */
  function LoadAll(server: Server, history: seq<Request>, students: seq<StudentRecord>, schoolId: string, conv: Conversions): Batch
  {
    LoadEach(LoaderOf(server, schoolId, conv), history, students)
  }

  /** The number of records that loaded without raising. */
  function CountPass(outcomes: seq<Outcome<LoadError>>): nat
  {
    if outcomes == [] then 0
    else (if outcomes[0].Pass? then 1 else 0) + CountPass(outcomes[1..])
  }

  /** The number of records whose load raised. */
  function CountFail(outcomes: seq<Outcome<LoadError>>): nat
  {
    if outcomes == [] then 0
    else (if outcomes[0].Fail? then 1 else 0) + CountFail(outcomes[1..])
  }

  /** Every record is counted exactly once, as a success or as an error. */
  lemma {:induction false} CountsPartition(outcomes: seq<Outcome<LoadError>>)
    ensures CountPass(outcomes) + CountFail(outcomes) == |outcomes|
  {
    if outcomes != [] {
      CountsPartition(outcomes[1..]);
    }
  }

  /** Loading `a + b` is loading `a`, then loading `b` after `a`'s requests. */
  lemma {:induction false} LoadEachAppend(load: Loading, history: seq<Request>, a: seq<StudentRecord>, b: seq<StudentRecord>)
    ensures var first := LoadEach(load, history, a);
            var second := LoadEach(load, history + first.sent, b);
            LoadEach(load, history, a + b) == Batch(first.sent + second.sent, first.outcomes + second.outcomes)
    decreases |a|
  {
    if a == [] {
      assert a + b == b;
      assert history + [] == history;
    } else {
      var st := load(history, a[0]);
      assert (a + b)[0] == a[0] && (a + b)[1..] == a[1..] + b;
      LoadEachAppend(load, history + st.sent, a[1..], b);
      var first := LoadEach(load, history + st.sent, a[1..]);
      assert (history + st.sent) + first.sent == history + (st.sent + first.sent);
      var second := LoadEach(load, history + (st.sent + first.sent), b);
      assert st.sent + (first.sent + second.sent) == (st.sent + first.sent) + second.sent;
      assert [st.outcome] + (first.outcomes + second.outcomes) == ([st.outcome] + first.outcomes) + second.outcomes;
    }
  }

  /**
   * Record `i`'s outcome is exactly what `load_student` gives for it, after
   * the requests of the records before it.
   */
  lemma LoadAllOutcomeAt(server: Server, history: seq<Request>, students: seq<StudentRecord>, schoolId: string, conv: Conversions, i: nat)
    requires i < |students|
    ensures var before := LoadAll(server, history, students[..i], schoolId, conv);
            LoadAll(server, history, students, schoolId, conv).outcomes[i]
              == LoadStudent(server, history + before.sent, students[i], schoolId, conv).outcome
  {
    var load := LoaderOf(server, schoolId, conv);
    assert students == students[..i] + students[i..];
    LoadEachAppend(load, history, students[..i], students[i..]);
    assert students[i..][0] == students[i];
  }

  /** The bodies of the requests posted to `/ed-fi/students`, in order. */
  function StudentPosts(requests: seq<Request>): seq<Payload>
  {
    if requests == [] then []
    else (if requests[0].endpoint == Students then [requests[0].body] else []) + StudentPosts(requests[1..])
  }

  lemma {:induction false} StudentPostsAppend(a: seq<Request>, b: seq<Request>)
    ensures StudentPosts(a + b) == StudentPosts(a) + StudentPosts(b)
  {
    if a == [] {
      assert a + b == b;
    } else {
      assert (a + b)[0] == a[0] && (a + b)[1..] == a[1..] + b;
      StudentPostsAppend(a[1..], b);
    }
  }

  /** The student bodies of the records, in file order. */
  function StudentPayloads(students: seq<StudentRecord>): (r: seq<Payload>)
    ensures |r| == |students|
    ensures forall i :: 0 <= i < |students| ==> r[i] == StudentPayload(students[i])
  {
    if students == [] then [] else [StudentPayload(students[0])] + StudentPayloads(students[1..])
  }

  /** One call of `load_student` posts that record's student body exactly once. */
  lemma LoadStudentPostsOnce(server: Server, history: seq<Request>, s: StudentRecord, schoolId: string, conv: Conversions)
    ensures StudentPosts(LoadStudent(server, history, s, schoolId, conv).sent) == [StudentPayload(s)]
  {
    var st := LoadStudent(server, history, s, schoolId, conv);
    if |st.sent| == 2 {
      assert st.sent == [st.sent[0]] + [st.sent[1]];
      StudentPostsAppend([st.sent[0]], [st.sent[1]]);
      assert StudentPosts([st.sent[1]]) == [];
    }
  }

  lemma {:induction false} LoadEachStudentPosts(load: Loading, history: seq<Request>, students: seq<StudentRecord>)
    requires forall h, s :: StudentPosts(load(h, s).sent) == [StudentPayload(s)]
    ensures StudentPosts(LoadEach(load, history, students).sent) == StudentPayloads(students)
    decreases |students|
  {
    if students != [] {
      var st := load(history, students[0]);
      LoadEachStudentPosts(load, history + st.sent, students[1..]);
      StudentPostsAppend(st.sent, LoadEach(load, history + st.sent, students[1..]).sent);
    }
  }

  /**
   * The batch posts every record's student body exactly once, in file order,
   * whatever the server answers: a failure never stops the records after it.
   */
  lemma LoadAllAttemptsEveryRecord(server: Server, history: seq<Request>, students: seq<StudentRecord>, schoolId: string, conv: Conversions)
    ensures StudentPosts(LoadAll(server, history, students, schoolId, conv).sent) == StudentPayloads(students)
  {
    var load := LoaderOf(server, schoolId, conv);
    forall h, s ensures StudentPosts(load(h, s).sent) == [StudentPayload(s)] {
      LoadStudentPostsOnce(server, h, s, schoolId, conv);
    }
    LoadEachStudentPosts(load, history, students);
  }

  /**
   * Within one record, an association is posted only right after that
   * record's student post succeeded.
   */
  lemma LoadStudentOrder(server: Server, history: seq<Request>, s: StudentRecord, schoolId: string, conv: Conversions)
    ensures var st := LoadStudent(server, history, s, schoolId, conv);
            forall k :: 0 <= k < |st.sent| && st.sent[k].endpoint == StudentSchoolAssociations ==>
              k == 1 && st.sent[0].endpoint == Students && server(history, st.sent[0])
  {
  }

  /** What `load_all_students` logs at the end, and the requests it issued. */
  datatype Summary = Summary(successCount: nat, errorCount: nat, sent: seq<Request>)

  /**
   * `load_all_students`: read the rows, then load each record, counting
   * successes and errors; an error in reading the file propagates.
   */
  method LoadAllStudents(server: Server, schoolId: string, conv: Conversions, rows: seq<Row>) returns (r: Result<Summary, CsvError>)
    ensures r.Failure? <==> DecodeRows(rows).Failure?
    ensures r.Failure? ==> r.error == DecodeRows(rows).error
    ensures r.Success? ==>
      var batch := LoadAll(server, [], DecodeRows(rows).value, schoolId, conv);
      && r.value.sent == batch.sent
      && r.value.successCount == CountPass(batch.outcomes)
      && r.value.errorCount == CountFail(batch.outcomes)
      && r.value.successCount + r.value.errorCount == |DecodeRows(rows).value|
  {
    var read := ReadRows(rows);
    if read.Failure? {
      return Failure(read.error);
    }
    var students := read.value;
    var load := LoaderOf(server, schoolId, conv);
    ghost var total := LoadEach(load, [], students);
    var sent: seq<Request> := [];
    var successCount, errorCount := 0, 0;
    var i := 0;
    assert students[0..] == students;
    while i < |students|
      invariant 0 <= i <= |students|
      invariant successCount + errorCount == i
      invariant var rest := LoadEach(load, sent, students[i..]);
                && sent + rest.sent == total.sent
                && successCount + CountPass(rest.outcomes) == CountPass(total.outcomes)
                && errorCount + CountFail(rest.outcomes) == CountFail(total.outcomes)
    {
      assert students[i..][0] == students[i] && students[i..][1..] == students[i + 1..];
      var step := load(sent, students[i]);
      ghost var later := LoadEach(load, sent + step.sent, students[i + 1..]);
      assert sent + (step.sent + later.sent) == (sent + step.sent) + later.sent;
      if step.outcome.Pass? {
        successCount := successCount + 1;
      } else {
        errorCount := errorCount + 1;
      }
      sent := sent + step.sent;
      i := i + 1;
    }
    assert students[i..] == [];
    assert sent + [] == sent;
    CountsPartition(total.outcomes);
    return Success(Summary(successCount, errorCount, sent));
  }
}
