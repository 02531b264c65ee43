/** Submitting an image build when the answer to a submission can be lost
    (src/ucloud_sandboxes_sdk/integrations/inspect.py). */
module BuildRecovery {
  import opened Prelude

  // A build record; `id` and `tag` are "" when the record has none.
  datatype Build = Build(id: string, imageId: string, tag: string, terminal: bool)

  // The build the client wants. No tag means that any tag will do.
  datatype Spec = Spec(imageId: string, tag: Option<string>)

  // How a submission fails: an API error (retryable or not, ambiguous or not)
  // or a transport error or timeout, which is always ambiguous.
  datatype SubmitError = Api(retryable: bool, ambiguous: bool) | Transport

  // The answer to one status read during recovery.
  datatype Poll = Found(build: Build) | NotYet | PollError

  // One attempt: what the two listings before it show (None: a listing failed),
  // the answer to the submission, the status reads of its recovery, and whether
  // the deadline has passed before it.
  datatype Attempt = Attempt(
    late: bool,
    active: Option<seq<Build>>, known: Option<seq<Build>>,
    submitted: Result<Build, SubmitError>, polls: seq<Poll>)

  datatype Source = Active | Direct | Recovered

  datatype End = Returned(build: Build, source: Source) | Raised | TimedOut | AttemptsUsedUp

  predicate TagFits(spec: Spec, tag: string) { spec.tag.None? || tag == "" || tag == spec.tag.value }

  function KnownIds(spec: Spec, builds: seq<Build>): set<string> {
    set b | b in builds && b.imageId == spec.imageId && TagFits(spec, b.tag) && b.id != "" :: b.id
  }

  /** `_recovered_build_matches_attempt` */
  predicate Matches(spec: Spec, build: Build, known: Option<seq<Build>>) {
    && build.imageId == spec.imageId && TagFits(spec, build.tag)
    && (build.terminal ==> known.Some? && build.id != "" && build.id !in KnownIds(spec, known.value))
  }

  predicate IsActive(spec: Spec, b: Build) {
    b.imageId == spec.imageId && (spec.tag.None? || b.tag == spec.tag.value) && !b.terminal
  }

  // `_active_image_build` picks the newest of the active builds; which one is
  // `pick`'s choice.
  ghost predicate Picks(pick: seq<Build> -> Build) {
    forall s :: s != [] ==> pick(s) in s
  }

  function ActiveOnes(spec: Spec, builds: seq<Build>): seq<Build> {
    if builds == [] then []
    else (if IsActive(spec, builds[0]) then [builds[0]] else []) + ActiveOnes(spec, builds[1..])
  }

  lemma {:induction false} ActiveOnesAreActive(spec: Spec, builds: seq<Build>)
    ensures forall b :: b in ActiveOnes(spec, builds) <==> b in builds && IsActive(spec, b)
  {
    if builds != [] {
      ActiveOnesAreActive(spec, builds[1..]);
      assert builds == [builds[0]] + builds[1..];
    }
  }

  // What the status reads after an ambiguous submission come to.
  datatype Recovery = Fits(build: Build) | Raises | Nothing

  /** The first status that fits the attempt, or the first unexpected error. */
  function RecoveryOf(spec: Spec, known: Option<seq<Build>>, polls: seq<Poll>): Recovery {
    if polls == [] then Nothing
    else if polls[0] == PollError then Raises
    else if polls[0].Found? && Matches(spec, polls[0].build, known) then Fits(polls[0].build)
    else RecoveryOf(spec, known, polls[1..])
  }

  /** `_recover_submitted_image_build` */
  method Recover(spec: Spec, known: Option<seq<Build>>, polls: seq<Poll>) returns (found: Option<Build>, raised: bool)
    ensures match RecoveryOf(spec, known, polls)
            case Fits(build) => found == Some(build) && !raised
            case Raises => found == None && raised
            case Nothing => found == None && !raised
  {
    for k := 0 to |polls|
      invariant RecoveryOf(spec, known, polls) == RecoveryOf(spec, known, polls[k..])
    {
      assert polls[k..][1..] == polls[k + 1..];
      if polls[k] == PollError {
        return None, true;
      }
      if polls[k].Found? && Matches(spec, polls[k].build, known) {
        return Some(polls[k].build), false;
      }
    }
    found, raised := None, false;
  }

  // ----- whole submissions -----

  predicate NoActive(spec: Spec, a: Attempt) { a.active.Some? ==> ActiveOnes(spec, a.active.value) == [] }

  /** The answer to the submission was lost, or may have been. */
  predicate Ambiguous(a: Attempt) {
    a.submitted.Err? && (a.submitted.error.Api? ==> a.submitted.error.retryable && a.submitted.error.ambiguous)
  }

  predicate Final(a: Attempt) { a.submitted.Err? && a.submitted.error.Api? && !a.submitted.error.retryable }

  /** Another attempt follows: nothing is active, the submission was refused
      retryably or lost, and if it may have been accepted, no build of it was found. */
  predicate GoesOn(spec: Spec, a: Attempt) {
    && !a.late && NoActive(spec, a) && a.submitted.Err? && !Final(a)
    && (Ambiguous(a) ==> RecoveryOf(spec, a.known, a.polls) == Nothing)
  }

  /** Where a returned build came from. */
  ghost predicate Justified(spec: Spec, a: Attempt, build: Build, source: Source) {
    match source
    case Active => a.active.Some? && build in a.active.value && IsActive(spec, build)
    case Direct => NoActive(spec, a) && a.submitted == Ok(build)
    case Recovered => NoActive(spec, a) && Ambiguous(a) && RecoveryOf(spec, a.known, a.polls) == Fits(build)
  }

  /** A whole submission: the attempts before the last went on, and the last, or
      its deadline, ended it. */
  ghost predicate SubmitRun(spec: Spec, attempts: seq<Attempt>, end: End, used: nat) {
    && used <= |attempts|
    && (forall k :: 0 <= k < used - 1 ==> GoesOn(spec, attempts[k]))
    && match end
       case AttemptsUsedUp => used == |attempts| && (used > 0 ==> GoesOn(spec, attempts[used - 1]))
       case TimedOut => used < |attempts| && attempts[used].late && (used > 0 ==> GoesOn(spec, attempts[used - 1]))
       case Returned(build, source) => used > 0 && !attempts[used - 1].late && Justified(spec, attempts[used - 1], build, source)
       case Raised =>
         && used > 0 && !attempts[used - 1].late
         && var a := attempts[used - 1];
            NoActive(spec, a) && (Final(a) || (Ambiguous(a) && RecoveryOf(spec, a.known, a.polls) == Raises))
  }

  /** `_submit_image_build_with_recovery`; `used` counts the attempts it began. */
  method Submit(spec: Spec, pick: seq<Build> -> Build, attempts: seq<Attempt>) returns (end: End, used: nat)
    requires Picks(pick)
    ensures SubmitRun(spec, attempts, end, used)
  {
    used := 0;
    while used < |attempts|
      invariant used <= |attempts|
      invariant forall k :: 0 <= k < used ==> GoesOn(spec, attempts[k])
    {
      var a := attempts[used];
      if a.late {
        return TimedOut, used;
      }
      used := used + 1;
      if a.active.Some? {
        var active := ActiveOnes(spec, a.active.value);
        ActiveOnesAreActive(spec, a.active.value);
        if active != [] {
          return Returned(pick(active), Active), used;
        }
      }
      match a.submitted {
        case Ok(build) =>
          return Returned(build, Direct), used;
        case Err(error) =>
          if error.Api? && !error.retryable {
            return Raised, used;
          }
          if error.Transport? || error.ambiguous {
            var found, raised := Recover(spec, a.known, a.polls);
            if raised {
              return Raised, used;
            }
            if found.Some? {
              return Returned(found.value, Recovered), used;
            }
          }
      }
    }
    end := AttemptsUsedUp;
  }

  // ----- an old build is never mistaken for the attempt's outcome -----

  /** A build of the image under the tag, or under no tag; any tag when none is asked for. */
  ghost predicate Concerns(spec: Spec, b: Build) {
    b.imageId == spec.imageId && (spec.tag == None || b.tag == "" || spec.tag == Some(b.tag))
  }

  /** `before` is every build that existed just before the attempt. */
  ghost function OldIds(spec: Spec, before: set<Build>): set<string> {
    set b | b in before && Concerns(spec, b) && b.id != "" :: b.id
  }

  /** A listing that worked shows every build of the spec that existed. */
  ghost predicate ListingShows(spec: Spec, before: set<Build>, known: Option<seq<Build>>) {
    known.Some? ==> OldIds(spec, before) <= KnownIds(spec, known.value)
  }

  /** No build of the spec that existed before has its id. */
  ghost predicate IsNew(spec: Spec, before: set<Build>, build: Build) {
    build.id != "" && forall b :: b in before && Concerns(spec, b) ==> b.id != build.id
  }

  lemma NewIds(spec: Spec, before: set<Build>, build: Build)
    requires build.id != ""
    ensures IsNew(spec, before, build) <==> build.id !in OldIds(spec, before)
  {
  }

  /** The gateway shows a build of the spec that is running or did not exist before the attempt. */
  ghost predicate ShowsOutcome(spec: Spec, before: set<Build>, p: Poll) {
    && p.Found? && Concerns(spec, p.build)
    && (p.build.terminal ==> IsNew(spec, before, p.build))
  }

  /** It does so in the k-th status read, and none before failed unexpectedly. */
  ghost predicate OutcomeAt(spec: Spec, before: set<Build>, polls: seq<Poll>, k: nat) {
    k < |polls| && ShowsOutcome(spec, before, polls[k]) && PollError !in polls[..k]
  }

  /** When the listing was exact, a recovery succeeds exactly when some status read,
      before any unexpected error, shows the attempt's possible outcome; and then
      with a build that is one. */
  lemma {:induction false} RecoveryRule(spec: Spec, before: set<Build>, known: seq<Build>, polls: seq<Poll>)
    requires KnownIds(spec, known) == OldIds(spec, before)
    ensures RecoveryOf(spec, Some(known), polls).Fits? <==>
      exists k: nat :: OutcomeAt(spec, before, polls, k)
    ensures RecoveryOf(spec, Some(known), polls).Fits? ==>
      ShowsOutcome(spec, before, Found(RecoveryOf(spec, Some(known), polls).build))
  {
    if polls != [] {
      var p, rest := polls[0], polls[1..];
      if p.Found? && p.build.id != "" {
        NewIds(spec, before, p.build);
      }
      assert p.Found? ==> (Matches(spec, p.build, Some(known)) <==> ShowsOutcome(spec, before, p));
      RecoveryRule(spec, before, known, rest);
      FirstOutcome(spec, before, polls);
    }
  }

  lemma FirstOutcome(spec: Spec, before: set<Build>, polls: seq<Poll>)
    requires polls != []
    ensures (exists k: nat :: OutcomeAt(spec, before, polls, k)) <==>
      polls[0] != PollError && (ShowsOutcome(spec, before, polls[0]) || exists k: nat :: OutcomeAt(spec, before, polls[1..], k))
  {
    var rest := polls[1..];
    if k: nat :| OutcomeAt(spec, before, polls, k) {
      assert polls[0] != PollError by {
        if k > 0 { assert polls[..k][0] == polls[0]; }
      }
      if k > 0 {
        assert polls[..k] == [polls[0]] + rest[..k - 1];
        assert OutcomeAt(spec, before, rest, k - 1);
      }
    }
    if polls[0] != PollError && ShowsOutcome(spec, before, polls[0]) {
      assert OutcomeAt(spec, before, polls, 0);
    }
    if k: nat :| polls[0] != PollError && OutcomeAt(spec, before, rest, k) {
      assert polls[..k + 1] == [polls[0]] + rest[..k];
      assert OutcomeAt(spec, before, polls, k + 1);
    }
  }

  lemma {:induction false} RecoveredBuildMatches(spec: Spec, known: Option<seq<Build>>, polls: seq<Poll>)
    ensures RecoveryOf(spec, known, polls).Fits? ==> Matches(spec, RecoveryOf(spec, known, polls).build, known)
  {
    if polls != [] {
      RecoveredBuildMatches(spec, known, polls[1..]);
    }
  }

  /** Over a whole submission, whatever else the gateway does: a terminal build
      that is returned as recovered did not exist before its attempt. */
  lemma RecoveredTerminalBuildIsNew(spec: Spec, attempts: seq<Attempt>, end: End, used: nat, before: set<Build>)
    requires SubmitRun(spec, attempts, end, used) && end.Returned? && end.source.Recovered? && end.build.terminal
    requires ListingShows(spec, before, attempts[used - 1].known)
    ensures IsNew(spec, before, end.build) && end.build !in before
  {
    var a := attempts[used - 1];
    RecoveredBuildMatches(spec, a.known, a.polls);
    NewIds(spec, before, end.build);
  }

  /** Without a listing before the attempt, no terminal build is ever recovered. */
  lemma NoListingNoTerminalRecovery(spec: Spec, attempts: seq<Attempt>, end: End, used: nat)
    requires SubmitRun(spec, attempts, end, used) && end.Returned? && end.source.Recovered?
    requires attempts[used - 1].known.None?
    ensures !end.build.terminal
  {
    RecoveredBuildMatches(spec, None, attempts[used - 1].polls);
  }

  // ----- which builds end a submission -----

  /** A listing shows a build of the image under exactly the tag, still running. */
  ghost predicate ShowsRunning(spec: Spec, listing: Option<seq<Build>>, b: Build) {
    && listing.Some? && b in listing.value
    && b.imageId == spec.imageId && (spec.tag == None || spec.tag == Some(b.tag)) && !b.terminal
  }

  /** A build that is running already is joined, at the first attempt whose listing
      shows one; nothing is submitted then. */
  lemma RunningBuildIsJoined(spec: Spec, attempts: seq<Attempt>, end: End, used: nat, k: nat, b: Build)
    requires SubmitRun(spec, attempts, end, used) && k < used && ShowsRunning(spec, attempts[k].active, b)
    ensures k == used - 1 && end.Returned? && end.source.Active? && ShowsRunning(spec, attempts[k].active, end.build)
  {
    ActiveOnesAreActive(spec, attempts[k].active.value);
    assert b in ActiveOnes(spec, attempts[k].active.value);
  }

  /** A returned build is running and was listed, was the answer to the last
      submission, or was shown after it: then it concerns the image and tag, and if it
      has ended, the listing before that submission named no such build by its id. */
  lemma ReturnedBuildFits(spec: Spec, attempts: seq<Attempt>, end: End, used: nat)
    requires SubmitRun(spec, attempts, end, used) && end.Returned?
    ensures used > 0
    ensures var a := attempts[used - 1];
      match end.source
      case Active => ShowsRunning(spec, a.active, end.build)
      case Direct => a.submitted == Ok(end.build)
      case Recovered =>
        && a.submitted.Err? && Concerns(spec, end.build) && Found(end.build) in a.polls
        && (end.build.terminal ==>
              && a.known.Some? && end.build.id != ""
              && forall b :: b in a.known.value && Concerns(spec, b) ==> b.id != end.build.id)
  {
    var a := attempts[used - 1];
    if end.source.Recovered? {
      RecoveredBuildMatches(spec, a.known, a.polls);
      RecoveredBuildWasShown(spec, a.known, a.polls);
      if end.build.terminal {
        forall b | b in a.known.value && Concerns(spec, b) ensures b.id != end.build.id {
          assert b.id != "" ==> b.id in KnownIds(spec, a.known.value);
        }
      }
    }
  }

  lemma {:induction false} RecoveredBuildWasShown(spec: Spec, known: Option<seq<Build>>, polls: seq<Poll>)
    ensures RecoveryOf(spec, known, polls).Fits? ==> Found(RecoveryOf(spec, known, polls).build) in polls
  {
    if polls != [] {
      RecoveredBuildWasShown(spec, known, polls[1..]);
    }
  }

  /** A submission is given up only for a refusal that is not retryable, or an
      unexpected error of a status read after an answer that may have been lost. */
  lemma RaisedForCause(spec: Spec, attempts: seq<Attempt>, used: nat)
    requires SubmitRun(spec, attempts, Raised, used)
    ensures used > 0 && attempts[used - 1].submitted.Err?
    ensures var a := attempts[used - 1];
      match a.submitted.error
      case Transport => PollError in a.polls
      case Api(retryable, ambiguous) => !retryable || (ambiguous && PollError in a.polls)
  {
    RaisesMeansError(spec, attempts[used - 1].known, attempts[used - 1].polls);
  }

  lemma {:induction false} RaisesMeansError(spec: Spec, known: Option<seq<Build>>, polls: seq<Poll>)
    ensures RecoveryOf(spec, known, polls).Raises? ==> PollError in polls
  {
    if polls != [] {
      RaisesMeansError(spec, known, polls[1..]);
    }
  }

  /** A lost answer is not submitted past a build that may be its outcome: the attempt
      after which a status read shows one, or fails unexpectedly, is the last. */
  lemma {:induction false} RecoveryEndsTheSubmission(spec: Spec, attempts: seq<Attempt>, end: End, used: nat, k: nat)
    requires SubmitRun(spec, attempts, end, used) && k < used && attempts[k].submitted.Err?
    requires attempts[k].submitted.error.Transport? || attempts[k].submitted.error == Api(true, true)
    requires RecoveryOf(spec, attempts[k].known, attempts[k].polls) != Nothing
    ensures k == used - 1 && (end == Raised || end.Returned?)
    ensures end.Returned? && !end.source.Active? ==>
      end.source == Recovered && RecoveryOf(spec, attempts[k].known, attempts[k].polls) == Fits(end.build)
  {
  }
}
