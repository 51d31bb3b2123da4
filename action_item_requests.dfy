/**
 * The request the client sends to create an action item: the assignees are joined into one
 * string cut to a maximum length, and the item starts neither completed nor archived.
 */
module ActionItemRequests {
  import opened Results

  /** The longest assignee string a request carries. */
  const MaxAssigneeLength: nat := 50

  /** The separator placed between assignee names. */
  const AssigneeSeparator: string := ", "

  /** The body of a create-action-item request; `id` and `assignee` may be null. */
  datatype CreateActionItemRequest = CreateActionItemRequest(
    id: Option<int>,
    teamId: string,
    task: string,
    completed: bool,
    assignee: Option<string>,
    dateCreated: string,
    archived: bool)

  /** The total length of the parts. */
  function TotalLength(parts: seq<string>): nat {
    if parts == [] then 0 else |parts[0]| + TotalLength(parts[1..])
  }

  /** `Array.prototype.join`: the parts with the separator between each two neighbours. */
  function Join(parts: seq<string>, separator: string): (r: string)
    ensures parts != [] ==> parts[0] <= r
  {
    if parts == [] then ""
    else if |parts| == 1 then parts[0]
    else parts[0] + separator + Join(parts[1..], separator)
  }

  /** The joined string is as long as all parts together plus one separator between each two. */
  lemma {:induction false} JoinLength(parts: seq<string>, separator: string)
    ensures |Join(parts, separator)| == if parts == [] then 0 else TotalLength(parts) + (|parts| - 1) * |separator|
  {
    if |parts| > 1 {
      JoinLength(parts[1..], separator);
      assert (|parts| - 1) * |separator| == |separator| + (|parts| - 2) * |separator|;
    }
  }

  /** `String.prototype.substring(0, end)`: the first `end` characters, or all of them if fewer. */
  function Prefix(s: string, end: nat): (r: string)
    ensures |r| == if |s| <= end then |s| else end
    ensures r <= s
  {
    if |s| <= end then s else s[..end]
  }

  /**
   * Builds the request: no id yet, not completed, not archived, created at `todaysDate`; the
   * assignees joined by ", " and cut to 50 characters, or null when there is no assignee list.
   */
  function GetCreateActionItemRequest(teamId: string, task: string, assignees: Option<seq<string>>, todaysDate: string)
    : (r: CreateActionItemRequest)
    ensures r.id.None? && !r.completed && !r.archived
    ensures r.teamId == teamId && r.task == task && r.dateCreated == todaysDate
    ensures r.assignee.None? <==> assignees.None?
    ensures r.assignee.Some? ==> |r.assignee.value| <= MaxAssigneeLength
    ensures r.assignee.Some? ==>
              |r.assignee.value| == if |Join(assignees.value, AssigneeSeparator)| <= MaxAssigneeLength
                                    then |Join(assignees.value, AssigneeSeparator)| else MaxAssigneeLength
    ensures r.assignee.Some? ==> r.assignee.value <= Join(assignees.value, AssigneeSeparator)
    ensures r.assignee.Some? && |Join(assignees.value, AssigneeSeparator)| <= MaxAssigneeLength ==>
              r.assignee.value == Join(assignees.value, AssigneeSeparator)
  {
    CreateActionItemRequest(
      id := None,
      teamId := teamId,
      task := task,
      completed := false,
      assignee := match assignees
        case Some(names) => Some(Prefix(Join(names, AssigneeSeparator), MaxAssigneeLength))
        case None => None,
      dateCreated := todaysDate,
      archived := false)
  }

  /** Assignees whose names and separators fit in 50 characters reach the request uncut. */
  lemma ShortAssigneeListsAreKept(teamId: string, task: string, names: seq<string>, todaysDate: string)
    requires names != [] && TotalLength(names) + 2 * (|names| - 1) <= MaxAssigneeLength
    ensures GetCreateActionItemRequest(teamId, task, Some(names), todaysDate).assignee
            == Some(Join(names, AssigneeSeparator))
  {
    JoinLength(names, AssigneeSeparator);
  }

  /** Where the `k`-th part starts in the joined string. */
  function JoinOffset(parts: seq<string>, separator: string, k: nat): nat
    requires k < |parts|
  {
    if k == 0 then 0 else |parts[0]| + |separator| + JoinOffset(parts[1..], separator, k - 1)
  }

  /** Every part can be read back from the joined string at its offset. */
  lemma {:induction false} JoinContainsEachPart(parts: seq<string>, separator: string, k: nat)
    requires k < |parts|
    ensures var o := JoinOffset(parts, separator, k);
            var joined := Join(parts, separator);
            o + |parts[k]| <= |joined| && joined[o..o + |parts[k]|] == parts[k]
  {
    var joined := Join(parts, separator);
    if k == 0 {
      assert joined[..|parts[0]|] == parts[0];
    } else {
      var rest := Join(parts[1..], separator);
      JoinContainsEachPart(parts[1..], separator, k - 1);
      var head := parts[0] + separator;
      assert joined == head + rest;
      var o := JoinOffset(parts[1..], separator, k - 1);
      SliceAfterPrefix(head, rest, o, o + |parts[k]|);
    }
  }

  /** The separator follows every part but the last, and the next part starts right after it. */
  lemma {:induction false} JoinSeparatesNeighbours(parts: seq<string>, separator: string, k: nat)
    requires k + 1 < |parts|
    ensures var o := JoinOffset(parts, separator, k) + |parts[k]|;
            var joined := Join(parts, separator);
            && o + |separator| <= |joined|
            && joined[o..o + |separator|] == separator
            && JoinOffset(parts, separator, k + 1) == o + |separator|
  {
    var joined := Join(parts, separator);
    var rest := Join(parts[1..], separator);
    var head := parts[0] + separator;
    assert joined == head + rest;
    if k == 0 {
      assert joined[|parts[0]|..|parts[0]| + |separator|] == separator;
    } else {
      JoinSeparatesNeighbours(parts[1..], separator, k - 1);
      var o := JoinOffset(parts[1..], separator, k - 1) + |parts[k]|;
      SliceAfterPrefix(head, rest, o, o + |separator|);
    }
  }

  /** A slice of the second half of a concatenation. */
  lemma SliceAfterPrefix(a: string, b: string, i: nat, j: nat)
    requires i <= j <= |b|
    ensures (a + b)[|a| + i..|a| + j] == b[i..j]
  {
  }

  /** When the joined assignees fit, every assignee name can be read back from the request. */
  lemma {:induction false} FittingAssigneesAreAllKept(teamId: string, task: string, names: seq<string>, todaysDate: string, k: nat)
    requires k < |names| && |Join(names, AssigneeSeparator)| <= MaxAssigneeLength
    ensures var a := GetCreateActionItemRequest(teamId, task, Some(names), todaysDate).assignee.value;
            var o := JoinOffset(names, AssigneeSeparator, k);
            o + |names[k]| <= |a| && a[o..o + |names[k]|] == names[k]
  {
    JoinContainsEachPart(names, AssigneeSeparator, k);
  }
}
