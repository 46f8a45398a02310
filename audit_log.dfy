/** The administrator's audit log: every recorded action, newest first, tagged by kind. */
module AuditLog {
  import opened Common

  /**
   * One audit record with the table's columns; `timestamp` is the record's instant as a number,
   * larger meaning later, and `description` is the backend's `descripcion`. Only `timestamp`
   * (the sort) and `action` (the tag) take part in the page's logic; the rest are shown as sent.
   */
  datatype LogEntry = LogEntry(id: int, timestamp: int, entity: Option<string>, entityId: Option<int>, action: string, description: Option<string>)

  const LoadFailed := Toast(ErrorToast, "Error", "No se pudieron cargar los registros de auditoría.")

  /** Each record is no older than the one after it. */
  predicate NewestFirst(s: seq<LogEntry>)
  {
    forall i, j | 0 <= i < j < |s| :: s[i].timestamp >= s[j].timestamp
  }

  /** Exchanges two cells of the array, keeping its contents as a multiset. */
  method Swap(a: array<LogEntry>, i: nat, j: nat)
    requires i < a.Length && j < a.Length
    modifies a
    ensures a[..] == old(a[..])[i := old(a[j])][j := old(a[i])]
    ensures multiset(a[..]) == multiset(old(a[..]))
  {
    a[i], a[j] := a[j], a[i];
  }

  /**
   * The newest-first `sort` of the fetched records, in place: an insertion sort that moves
   * each record towards the front past every older one.
   */
  method SortNewestFirst(a: array<LogEntry>)
    modifies a
    ensures NewestFirst(a[..])
    ensures multiset(a[..]) == multiset(old(a[..]))
  {
    var i := 0;
    while i < a.Length
      invariant 0 <= i <= a.Length
      invariant NewestFirst(a[..i])
      invariant multiset(a[..]) == multiset(old(a[..]))
    {
      var j := i;
      while j > 0 && a[j - 1].timestamp < a[j].timestamp
        invariant 0 <= j <= i
        invariant multiset(a[..]) == multiset(old(a[..]))
        invariant forall p, q | 0 <= p < q <= i && q != j :: a[p].timestamp >= a[q].timestamp
        invariant 0 < j < i ==> a[j - 1].timestamp >= a[j + 1].timestamp
      {
        Swap(a, j - 1, j);
        j := j - 1;
      }
      i := i + 1;
    }
  }

  /** The colour of an action's tag. */
  datatype TagSeverity = Success | Warning | Danger | Info

  /** The `switch` on `action.toUpperCase()` in `actionBodyTemplate`. */
  function SeverityOf(action: string): (s: TagSeverity)
    ensures s == Success <==> ToUpper(action) == "CREATE" || ToUpper(action) == "LOGIN_SUCCESS"
    ensures s == Warning <==> ToUpper(action) == "UPDATE"
    ensures s == Danger <==> ToUpper(action) == "DELETE" || ToUpper(action) == "LOGIN_FAILED"
    ensures s == Info <==> ToUpper(action) !in ["CREATE", "LOGIN_SUCCESS", "UPDATE", "DELETE", "LOGIN_FAILED"]
  {
    var u := ToUpper(action);
    if u == "CREATE" || u == "LOGIN_SUCCESS" then Success
    else if u == "UPDATE" then Warning
    else if u == "DELETE" || u == "LOGIN_FAILED" then Danger
    else Info
  }

  /** The tag shown in the action column: coloured by kind, labelled with the action as recorded. */
  datatype ActionTag = ActionTag(severity: TagSeverity, text: string)

  function TagOf(e: LogEntry): (t: ActionTag)
    ensures t.text == e.action && t.severity == SeverityOf(e.action)
  {
    ActionTag(SeverityOf(e.action), e.action)
  }

  /** Matching ignores case: an action and its upper-case form get the same colour. */
  lemma {:induction false} SeverityIgnoresCase(action: string)
    ensures SeverityOf(ToUpper(action)) == SeverityOf(action)
  {
    ToUpperIdempotent(action);
  }

  /** A lower-case action is still recognised, yet its tag keeps the lower-case spelling. */
  lemma LowerCaseCreateIsSuccess()
    ensures TagOf(LogEntry(0, 0, None, None, "create", None)) == ActionTag(Success, "create")
  {
    assert ToUpper("create") == "CREATE" by {
      assert ToUpper("create") == UpperChar('c') + ToUpper("reate");
      assert ToUpper("reate") == UpperChar('r') + ToUpper("eate");
      assert ToUpper("eate") == UpperChar('e') + ToUpper("ate");
      assert ToUpper("ate") == UpperChar('a') + ToUpper("te");
      assert ToUpper("te") == UpperChar('t') + ToUpper("e");
      assert ToUpper("e") == UpperChar('e') + ToUpper("");
    }
  }

  class AuditLogPage {
    var logs: seq<LogEntry>
    var loading: bool
    var toasts: seq<Toast>

    constructor ()
      ensures logs == [] && loading && toasts == []
    {
      logs, loading, toasts := [], true, [];
    }

    /** The load effect: the fetched array is sorted in place and shown; a failure leaves the table as it was. */
    method Load(reply: Outcome<array<LogEntry>>)
      modifies this, if reply.Ok? then {reply.value} else {}
      ensures reply.Ok? ==>
        && NewestFirst(logs) && multiset(logs) == multiset(old(reply.value[..]))
        && logs == reply.value[..] && toasts == old(toasts)
      ensures reply.Failed? ==> logs == old(logs) && toasts == old(toasts) + [LoadFailed]
      ensures !loading
    {
      loading := true;
      match reply {
        case Ok(result) =>
          SortNewestFirst(result);
          logs := result[..];
        case Failed(_) =>
          toasts := toasts + [LoadFailed];
      }
      loading := false;
    }
  }
}
