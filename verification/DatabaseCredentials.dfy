/**
 Certificate and credentials of a managed MySQL database over any sequence of refreshes
 (`Refresh` and `Flatten` in `linode/databasemysqlv2/framework_models.go`).
 */
module DatabaseCredentials {
  import opened Wrappers
  import opened Attributes

  datatype Credentials = Credentials(password: string, username: string)

  /** The answers to one refresh: database status, certificate, credentials. None is a failed call. */
  datatype Answers = Answers(status: Option<string>, certificate: Option<string>, credentials: Option<Credentials>)

  /** `StatusIsSuspended`. */
  predicate StatusIsSuspended(status: string) {
    status == "suspended" || status == "suspending"
  }

  /** The refresh reaches `Flatten` without certificate and credentials. */
  predicate FindsSuspended(a: Answers) {
    a.status.Some? && StatusIsSuspended(a.status.value)
  }

  /** The refresh reaches `Flatten` with certificate and credentials. */
  predicate Delivers(a: Answers) {
    a.status.Some? && !StatusIsSuspended(a.status.value) && a.certificate.Some? && a.credentials.Some?
  }

  datatype RefreshCall = RefreshCall(answers: Answers, preserveKnown: bool)

  /** The three attributes; they are refreshed together. */
  datatype Secrets = Secrets(caCert: Attr<string>, rootPassword: Attr<string>, rootUsername: Attr<string>)

  function DeliveredBy(a: Answers): Secrets
    requires Delivers(a)
  {
    Secrets(Known(a.certificate.value), Known(a.credentials.value.password), Known(a.credentials.value.username))
  }

  /** What one refresh does to an attribute for which it delivers the given value. */
  function RefreshAttribute(before: Attr<string>, r: RefreshCall, delivered: Attr<string>): Attr<string> {
    if Delivers(r.answers) then KeepOrUpdateValue(before, delivered, r.preserveKnown)
    else if FindsSuspended(r.answers) then KeepOrUpdateValue(before, Null, true)
    else before
  }

  function RefreshAll(s: Secrets, r: RefreshCall): Secrets {
    var d := if Delivers(r.answers) then DeliveredBy(r.answers) else Secrets(Null, Null, Null);
    Secrets(RefreshAttribute(s.caCert, r, d.caCert), RefreshAttribute(s.rootPassword, r, d.rootPassword),
            RefreshAttribute(s.rootUsername, r, d.rootUsername))
  }

  /** Where an attribute may get its value from, the first choice first. */
  function Sources(before: Attr<string>, delivered: Option<string>, preserveKnown: bool): seq<Attr<string>> {
    if preserveKnown || delivered.None? then [before, FromPointer(delivered)] else [Known(delivered.value)]
  }

  function PasswordOf(creds: Option<Credentials>): Option<string> {
    if creds.Some? then Some(creds.value.password) else None
  }

  function UsernameOf(creds: Option<Credentials>): Option<string> {
    if creds.Some? then Some(creds.value.username) else None
  }

  /** The first non-unknown of an attribute's sources, as one merge. */
  lemma SourcesResolve(before: Attr<string>, delivered: Option<string>, preserveKnown: bool, r: Attr<string>)
    ensures IsFirstNonUnknown(Sources(before, delivered, preserveKnown), r)
            <==> r == KeepOrUpdateValue(before, FromPointer(delivered), preserveKnown || delivered.None?)
  {
    var sources := Sources(before, delivered, preserveKnown);
    assert sources[0] == if |sources| == 2 then before else FromPointer(delivered);
    assert sources[|sources| - 1] == FromPointer(delivered);
  }

  class Model {
    var caCert: Attr<string>
    var rootPassword: Attr<string>
    var rootUsername: Attr<string>

    constructor ()
      ensures Current() == Secrets(Null, Null, Null)
    {
      caCert, rootPassword, rootUsername := Null, Null, Null;
    }

    function Current(): Secrets
      reads this
    {
      Secrets(caCert, rootPassword, rootUsername)
    }

    /**
     The certificate and credential part of `Flatten`. Nothing is unknown afterwards: an attribute keeps its
     value unless it was unknown or is overwritten by a delivered one, and is null only if it was, or if it
     was unknown and nothing was delivered.
     */
    method Flatten(ssl: Option<string>, creds: Option<Credentials>, preserveKnown: bool)
      modifies this
      ensures !caCert.Unknown? && !rootPassword.Unknown? && !rootUsername.Unknown?
      ensures IsFirstNonUnknown(Sources(old(caCert), ssl, preserveKnown), caCert)
      ensures IsFirstNonUnknown(Sources(old(rootPassword), PasswordOf(creds), preserveKnown), rootPassword)
      ensures IsFirstNonUnknown(Sources(old(rootUsername), UsernameOf(creds), preserveKnown), rootUsername)
    {
      if ssl.Some? {
        caCert := KeepOrUpdateValue(caCert, Known(ssl.value), preserveKnown);
      } else {
        caCert := KeepOrUpdateValue(caCert, Null, true);
      }
      if creds.Some? {
        rootPassword := KeepOrUpdateValue(rootPassword, Known(creds.value.password), preserveKnown);
        rootUsername := KeepOrUpdateValue(rootUsername, Known(creds.value.username), preserveKnown);
      } else {
        rootPassword := KeepOrUpdateValue(rootPassword, Null, true);
        rootUsername := KeepOrUpdateValue(rootUsername, Null, true);
      }
      SourcesResolve(old(caCert), ssl, preserveKnown, caCert);
      SourcesResolve(old(rootPassword), PasswordOf(creds), preserveKnown, rootPassword);
      SourcesResolve(old(rootUsername), UsernameOf(creds), preserveKnown, rootUsername);
    }

    /**
     `Refresh`: a failed call leaves everything as it was; certificate and credentials are asked for, and
     needed, only when the database is neither suspended nor being suspended.
     */
    method Refresh(a: Answers, preserveKnown: bool) returns (ok: bool)
      modifies this
      ensures ok
              <==> && a.status.Some?
                   && (a.status.value in {"suspended", "suspending"} || (a.certificate.Some? && a.credentials.Some?))
      ensures !ok ==> Current() == old(Current())
      ensures ok && a.status.value in {"suspended", "suspending"} ==>
                && caCert == KeepOrUpdateValue(old(caCert), Null, true)
                && rootPassword == KeepOrUpdateValue(old(rootPassword), Null, true)
                && rootUsername == KeepOrUpdateValue(old(rootUsername), Null, true)
      ensures ok && a.status.value !in {"suspended", "suspending"} ==>
                && caCert == KeepOrUpdateValue(old(caCert), Known(a.certificate.value), preserveKnown)
                && rootPassword
                   == KeepOrUpdateValue(old(rootPassword), Known(a.credentials.value.password), preserveKnown)
                && rootUsername
                   == KeepOrUpdateValue(old(rootUsername), Known(a.credentials.value.username), preserveKnown)
      ensures Current() == RefreshAll(old(Current()), RefreshCall(a, preserveKnown))
    {
      if a.status.None? {
        return false;
      }
      var ssl: Option<string>, creds: Option<Credentials> := None, None;
      if !StatusIsSuspended(a.status.value) {
        if a.certificate.None? {
          return false;
        }
        ssl := a.certificate;
        if a.credentials.None? {
          return false;
        }
        creds := a.credentials;
      }
      Flatten(ssl, creds, preserveKnown);
      SourcesResolve(old(caCert), ssl, preserveKnown, caCert);
      SourcesResolve(old(rootPassword), PasswordOf(creds), preserveKnown, rootPassword);
      SourcesResolve(old(rootUsername), UsernameOf(creds), preserveKnown, rootUsername);
      return true;
    }
  }

  // ---------------------------------------------------------------- whole runs

  function RunAll(s: Secrets, run: seq<RefreshCall>): Secrets
    decreases |run|
  {
    if run == [] then s else RefreshAll(RunAll(s, run[..|run| - 1]), run[|run| - 1])
  }

  /** An overwriting refresh that found the database running. */
  predicate Replaces(r: RefreshCall) {
    !r.preserveKnown && Delivers(r.answers)
  }

  predicate Succeeds(r: RefreshCall) {
    FindsSuspended(r.answers) || Delivers(r.answers)
  }

  ghost predicate LastReplacing(run: seq<RefreshCall>, i: int) {
    0 <= i < |run| && Replaces(run[i]) && forall j :: i < j < |run| ==> !Replaces(run[j])
  }

  ghost predicate FirstSucceeding(run: seq<RefreshCall>, i: int) {
    0 <= i < |run| && Succeeds(run[i]) && forall j :: 0 <= j < i ==> !Succeeds(run[j])
  }

  /** After the last replacing refresh nothing changes: all three attributes come from that one response. */
  lemma {:induction false} LastReplacingWins(s: Secrets, run: seq<RefreshCall>, i: nat)
    requires LastReplacing(run, i)
    ensures RunAll(s, run) == DeliveredBy(run[i].answers)
    decreases |run|
  {
    if i < |run| - 1 {
      var init := run[..|run| - 1];
      assert init[i] == run[i];
      LastReplacingWins(s, init, i);
    }
  }

  /** What an initially unknown attribute becomes at the first refresh that succeeds. */
  function Settled(r: RefreshCall): Secrets {
    if Delivers(r.answers) then DeliveredBy(r.answers) else Secrets(Null, Null, Null)
  }

  function Fill(a: Attr<string>, b: Attr<string>): Attr<string> {
    if a.Unknown? then b else a
  }

  /**
   Without a replacing refresh, known and null attributes never change, and unknown ones are settled by
   the first refresh that succeeds: by its response, or to null if the database was suspended.
   */
  lemma {:induction false} WithoutReplacement(s: Secrets, run: seq<RefreshCall>)
    requires forall j :: 0 <= j < |run| ==> !Replaces(run[j])
    ensures (forall j :: 0 <= j < |run| ==> !Succeeds(run[j])) ==> RunAll(s, run) == s
    ensures forall i :: FirstSucceeding(run, i) ==>
              var t := Settled(run[i]);
              RunAll(s, run) == Secrets(Fill(s.caCert, t.caCert), Fill(s.rootPassword, t.rootPassword),
                                        Fill(s.rootUsername, t.rootUsername))
    decreases |run|
  {
    if run != [] {
      var init, last := run[..|run| - 1], run[|run| - 1];
      WithoutReplacement(s, init);
      forall i | FirstSucceeding(run, i)
        ensures var t := Settled(run[i]);
                RunAll(s, run) == Secrets(Fill(s.caCert, t.caCert), Fill(s.rootPassword, t.rootPassword),
                                          Fill(s.rootUsername, t.rootUsername))
      {
        if i < |run| - 1 {
          assert FirstSucceeding(init, i) && init[i] == run[i];
        } else {
          assert forall j :: 0 <= j < |init| ==> init[j] == run[j];
          assert RunAll(s, init) == s;
        }
      }
    }
  }

  /**
   Overwriting refreshes only, with arbitrary statuses and failures: the attributes are those of the most
   recent response of a running database, or, when there was none but some refresh succeeded, the initial
   ones with unknown turned to null.
   */
  lemma OverwritingRun(s: Secrets, run: seq<RefreshCall>)
    requires forall j :: 0 <= j < |run| ==> !run[j].preserveKnown
    ensures forall i :: LastReplacing(run, i) ==> RunAll(s, run) == DeliveredBy(run[i].answers)
    ensures (exists i :: LastReplacing(run, i)) <==> exists j :: 0 <= j < |run| && Delivers(run[j].answers)
    ensures (forall j :: 0 <= j < |run| ==> !Delivers(run[j].answers))
            && (exists j :: 0 <= j < |run| && Succeeds(run[j])) ==>
              RunAll(s, run) == Secrets(Fill(s.caCert, Null), Fill(s.rootPassword, Null), Fill(s.rootUsername, Null))
  {
    forall i | LastReplacing(run, i) ensures RunAll(s, run) == DeliveredBy(run[i].answers) {
      LastReplacingWins(s, run, i);
    }
    if j :| 0 <= j < |run| && Delivers(run[j].answers) {
      var i := LatestReplacing(run, j);
      assert LastReplacing(run, i);
    }
    if (forall j :: 0 <= j < |run| ==> !Delivers(run[j].answers)) && exists j :: 0 <= j < |run| && Succeeds(run[j]) {
      WithoutReplacement(s, run);
      var j :| 0 <= j < |run| && Succeeds(run[j]);
      var i := EarliestSucceeding(run, j);
      assert Settled(run[i]) == Secrets(Null, Null, Null);
    }
  }

  lemma {:induction false} EarliestSucceeding(run: seq<RefreshCall>, j: nat) returns (i: nat)
    requires j < |run| && Succeeds(run[j])
    ensures FirstSucceeding(run, i)
  {
    if k: nat :| k < j && Succeeds(run[k]) {
      i := EarliestSucceeding(run, k);
    } else {
      i := j;
    }
  }

  lemma {:induction false} LatestReplacing(run: seq<RefreshCall>, j: nat) returns (i: nat)
    requires j < |run| && Replaces(run[j])
    ensures LastReplacing(run, i)
    decreases |run| - j
  {
    if k: nat :| j < k < |run| && Replaces(run[k]) {
      i := LatestReplacing(run, k);
    } else {
      i := j;
    }
  }
}
