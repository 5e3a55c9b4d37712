/** The student's complaint timeline (`ComplaintStatusTracker` in
    src/pages/TrackComplaints.js): three steps in lifecycle order, each shown
    as done, current or still to come for the complaint's status. */
module Timeline {
  import opened Wrappers
  import opened ComplaintModel
  import Seqs

  /** The steps, in order. */
  const Steps: seq<string> := ["Submitted", "In Progress", "Resolved"]

  /** The position of a status string among the steps; -1 for any other string. */
  function CurrentIndex(status: string): (r: int)
    ensures -1 <= r < |Steps|
    ensures r == -1 <==> status !in Steps
    ensures r >= 0 ==> Steps[r] == status
  {
    Seqs.IndexOf(Steps, status)
  }

  /** A status's place in the lifecycle. */
  function Ordinal(s: Status): nat
  {
    match s
    case Submitted => 0
    case InProgress => 1
    case Resolved => 2
  }

  /** The timeline places every status at its lifecycle position. */
  lemma CurrentIndexOfStatus(s: Status)
    ensures CurrentIndex(StatusName(s)) == Ordinal(s)
  {
  }

  datatype StepState = Completed | Current | Upcoming

  /** How a step is drawn: before the current position it is done, at it
      current, after it still to come. */
  function StepStateOf(step: nat, status: string): (r: StepState)
    ensures r == Current <==> step < |Steps| && Steps[step] == status
    ensures r == Completed <==> step < |Steps| && status in Steps[step + 1..]
  {
    var cur := CurrentIndex(status);
    if step < cur then Completed
    else if step == cur then Current
    else Upcoming
  }

  /** A string that is not a step name leaves every step still to come. */
  lemma UnknownStatusAllUpcoming(status: string, step: nat)
    requires status !in Steps
    ensures StepStateOf(step, status) == Upcoming
  {
  }

  /** For a known status exactly one step is current, and the completed steps
      are exactly those before it. */
  lemma OneCurrentStep(s: Status, step: nat)
    requires step < |Steps|
    ensures StepStateOf(step, StatusName(s)) == Current <==> step == Ordinal(s)
    ensures StepStateOf(step, StatusName(s)) == Completed <==> step < Ordinal(s)
  {
    CurrentIndexOfStatus(s);
  }

  /** The connector drawn after a step (there is none after the last). */
  function ConnectorDone(step: nat, status: string): (done: bool)
    requires step < |Steps| - 1
    ensures done <==> status in Steps[step + 1..]
  {
    step < CurrentIndex(status)
  }

  /** A connector is drawn done exactly when the step before it is done. */
  lemma ConnectorFollowsStep(step: nat, status: string)
    requires step < |Steps| - 1
    ensures ConnectorDone(step, status) <==> StepStateOf(step, status) == Completed
  {
  }

  /** Whether a step shows the resolution date. */
  predicate ShowsResolved(step: nat, status: string)
  {
    step == 2 && CurrentIndex(status) == 2
  }

  /** The resolution date appears on the last step, and only for a Resolved complaint. */
  lemma ResolutionDateOnlyWhenResolved(step: nat, s: Status)
    ensures ShowsResolved(step, StatusName(s)) <==> step == 2 && s == Resolved
  {
    CurrentIndexOfStatus(s);
  }

  /** Moving forward in the lifecycle never un-completes a step. */
  lemma ProgressIsMonotone(a: Status, b: Status, step: nat)
    requires Ordinal(a) <= Ordinal(b)
    requires StepStateOf(step, StatusName(a)) == Completed
    ensures StepStateOf(step, StatusName(b)) == Completed
  {
    CurrentIndexOfStatus(a);
    CurrentIndexOfStatus(b);
  }

  /** What the tracker is given for one complaint: its status, its creation
      time and, when the listing carries it, its last update time (ms). */
  datatype Card = Card(status: string, createdAt: nat, updatedAt: Option<nat>)

  /** The card built from an entry of the student's complaint listing as it
      is formatted: the entry carries no update time. */
  function ListedCard(c: Complaint): Card
  {
    Card(StatusName(c.status), c.createdAt, None)
  }

  /** The card when the listing also carries the update time. */
  function TrackedCard(c: Complaint): Card
  {
    Card(StatusName(c.status), c.createdAt, Some(c.updatedAt))
  }

  /** The date under the last step: the update time, or the viewer's clock
      when the card has none; nothing unless the complaint is resolved. */
  function ResolutionDate(card: Card, today: nat): (r: Option<nat>)
    ensures r.Some? <==> ShowsResolved(2, card.status)
    ensures r.Some? && card.updatedAt.Some? ==> r.value == card.updatedAt.value
  {
    if ShowsResolved(2, card.status) then Some(card.updatedAt.GetOr(today)) else None
  }

  /** With the listing as formatted, a resolved complaint is always shown as
      resolved on the day it is viewed, whenever it was resolved. */
  lemma ListedResolutionDateIsToday(c: Complaint, today: nat)
    requires c.status == Resolved
    ensures ResolutionDate(ListedCard(c), today) == Some(today)
    ensures c.updatedAt != today ==> ResolutionDate(ListedCard(c), today) != Some(c.updatedAt)
  {
    ResolutionDateOnlyWhenResolved(2, c.status);
  }

  /** With the update time carried, the date shown is when the complaint was
      last written, whatever day it is viewed, and nothing shows before it is
      resolved. */
  lemma TrackedResolutionDateIsUpdate(c: Complaint, today: nat)
    ensures c.status == Resolved ==> ResolutionDate(TrackedCard(c), today) == Some(c.updatedAt)
    ensures c.status != Resolved ==> ResolutionDate(TrackedCard(c), today).None?
  {
    ResolutionDateOnlyWhenResolved(2, c.status);
  }
}
