/** The order of an event's email templates, and the delivery counts shown with them. */
module EmailTemplates {
  import opened Wrappers
  import opened Normalizer
  import opened Store
  import opened EmailJobs

  datatype Template = Template(event: Id, order: Option<int>)

  function OfEvent(templates: map<Id, Template>, event: Id): set<Id> {
    set t | t in templates && templates[t].event == event
  }

  /** Each listed template gets its position. */
  function Reordered(templates: map<Id, Template>, ids: seq<Id>, n: nat): map<Id, Template>
    requires n <= |ids|
    requires forall i :: 0 <= i < n ==> ids[i] in templates
    ensures Reordered(templates, ids, n).Keys == templates.Keys
  {
    if n == 0 then templates
    else
      var before := Reordered(templates, ids, n - 1);
      before[ids[n - 1] := before[ids[n - 1]].(order := Some(n - 1))]
  }

  /** With no id twice, every listed template has its own index. */
  lemma {:induction false} ListedGetTheirIndex(templates: map<Id, Template>, ids: seq<Id>, n: nat, i: nat)
    requires i < n <= |ids| && Distinct(ids) && forall j :: 0 <= j < n ==> ids[j] in templates
    ensures Reordered(templates, ids, n)[ids[i]] == templates[ids[i]].(order := Some(i))
    decreases n
  {
    if i < n - 1 {
      assert ids[i] != ids[n - 1];
      ListedGetTheirIndex(templates, ids, n - 1, i);
    } else {
      OnlyOrderChanges(templates, ids, i, ids[i]);
    }
  }

  lemma {:induction false} OnlyOrderChanges(templates: map<Id, Template>, ids: seq<Id>, n: nat, t: Id)
    requires n <= |ids| && t in templates && forall j :: 0 <= j < n ==> ids[j] in templates
    ensures Reordered(templates, ids, n)[t].(order := None) == templates[t].(order := None)
    ensures (forall j :: 0 <= j < n ==> ids[j] != t) ==> Reordered(templates, ids, n)[t] == templates[t]
    decreases n
  {
    if n > 0 {
      OnlyOrderChanges(templates, ids, n - 1, t);
      var before := Reordered(templates, ids, n - 1);
      assert before[ids[n - 1]].(order := Some(n - 1)).(order := None) == before[ids[n - 1]].(order := None);
    }
  }

  /** The counts shown with a template. */
  datatype Counts = Counts(failed: nat, pending: nat, sent: nat)

  /** One group of status rows: how many rows of the template have the status. */
  datatype Group = Group(email: Id, status: EmailStatus, count: nat)

  function RowsWith(statuses: map<Id, StatusRow>, email: Id, status: EmailStatus): set<Id> {
    set k | k in statuses && statuses[k].email == email && statuses[k].status == status
  }

  /** What grouping the rows of some templates by template and status returns: a group for each that is not empty. */
  predicate Groups(statuses: map<Id, StatusRow>, templates: set<Id>, groups: seq<Group>) {
    && (forall i :: 0 <= i < |groups| ==>
          groups[i].email in templates && groups[i].count == |RowsWith(statuses, groups[i].email, groups[i].status)|)
    && forall k :: k in statuses && statuses[k].email in templates ==>
         exists i :: 0 <= i < |groups| && groups[i].email == statuses[k].email && groups[i].status == statuses[k].status
  }

  function CountOf(counts: Counts, status: EmailStatus): nat {
    match status
    case Failed => counts.failed
    case Pending => counts.pending
    case Sent => counts.sent
  }

  function WithCount(counts: Counts, status: EmailStatus, n: nat): Counts {
    match status
    case Failed => counts.(failed := n)
    case Pending => counts.(pending := n)
    case Sent => counts.(sent := n)
  }

  function CountsFor(result: map<Id, Counts>, email: Id): Counts {
    if email in result then result[email] else Counts(0, 0, 0)
  }

  /** The accumulated counts are the sizes of the groups; a group that does not exist is empty. */
  method GetStatusCounts(ghost statuses: map<Id, StatusRow>, templates: set<Id>, groups: seq<Group>)
    returns (result: map<Id, Counts>)
    requires Groups(statuses, templates, groups)
    ensures forall email, status :: email in templates ==>
        CountOf(CountsFor(result, email), status) == |RowsWith(statuses, email, status)|
  {
    result := map[];
    for i := 0 to |groups|
      invariant forall email, status ::
        CountOf(CountsFor(result, email), status)
            == (if GroupBefore(groups, i, email, status) then |RowsWith(statuses, email, status)| else 0)
    {
      var group := groups[i];
      ghost var before := result;
      result := result[group.email := WithCount(CountsFor(result, group.email), group.status, group.count)];
      forall email, status ensures CountOf(CountsFor(result, email), status) ==
        if GroupBefore(groups, i + 1, email, status) then |RowsWith(statuses, email, status)| else 0
      {
        assert CountOf(CountsFor(before, email), status) ==
          if GroupBefore(groups, i, email, status) then |RowsWith(statuses, email, status)| else 0;
        GroupNext(groups, i, email, status);
      }
    }
    forall email, status | email in templates
      ensures CountOf(CountsFor(result, email), status) == |RowsWith(statuses, email, status)|
    {
      NoGroupNoRows(statuses, templates, groups, email, status);
    }
  }

  ghost predicate GroupBefore(groups: seq<Group>, n: nat, email: Id, status: EmailStatus)
    requires n <= |groups|
  {
    exists i :: 0 <= i < n && groups[i].email == email && groups[i].status == status
  }

  lemma GroupNext(groups: seq<Group>, n: nat, email: Id, status: EmailStatus)
    requires n < |groups|
    ensures GroupBefore(groups, n + 1, email, status) <==>
      GroupBefore(groups, n, email, status) || (groups[n].email == email && groups[n].status == status)
  {
    if GroupBefore(groups, n, email, status) {
      var i :| 0 <= i < n && groups[i].email == email && groups[i].status == status;
      assert i < n + 1;
    }
  }

  lemma NoGroupNoRows(statuses: map<Id, StatusRow>, templates: set<Id>, groups: seq<Group>, email: Id,
                      status: EmailStatus)
    requires Groups(statuses, templates, groups) && email in templates
    ensures !GroupBefore(groups, |groups|, email, status) ==> |RowsWith(statuses, email, status)| == 0
  {
    if !GroupBefore(groups, |groups|, email, status) {
      forall k ensures k !in RowsWith(statuses, email, status) {
      }
      assert RowsWith(statuses, email, status) == {};
    }
  }

  class EmailTemplates {
    var templates: map<Id, Template>

    constructor ()
      ensures templates == map[]
    {
      templates := map[];
    }

    /** Refused, and nothing changed, exactly when an id repeats or is not one of the event's templates. */
    method Reorder(event: Id, ids: seq<Id>) returns (r: Result<()>)
      modifies this
      ensures r.Ok? <==> Distinct(ids) && forall i :: 0 <= i < |ids| ==> ids[i] in OfEvent(old(templates), event)
      ensures r.Err? ==> r == Err(NotFound) && templates == old(templates)
      ensures r.Ok? ==>
        && templates.Keys == old(templates).Keys
        && (forall i :: 0 <= i < |ids| ==> templates[ids[i]] == old(templates)[ids[i]].(order := Some(i)))
        && forall t :: t in templates && t !in ids ==> templates[t] == old(templates)[t]
    {
      CountMeansAllDistinct(ids, OfEvent(templates, event));
      if CountMatching(ids, OfEvent(templates, event)) != |ids| {
        return Err(NotFound);
      }
      ghost var before := templates;
      for i := 0 to |ids|
        invariant templates == Reordered(before, ids, i)
      {
        templates := templates[ids[i] := templates[ids[i]].(order := Some(i))];
      }
      forall i | 0 <= i < |ids| ensures templates[ids[i]] == before[ids[i]].(order := Some(i)) {
        ListedGetTheirIndex(before, ids, |ids|, i);
      }
      forall t | t in templates && t !in ids ensures templates[t] == before[t] {
        OnlyOrderChanges(before, ids, |ids|, t);
      }
      return Ok(());
    }
  }
}
