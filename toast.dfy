/** `toast.js`: the page's toast notifications. Elements are numbered in
    the order they are created; the container's children, the `toasts`
    array, the `removing` class and the timers `show` and `dismiss`
    schedule are the state. A timer firing is an explicit step, and any
    pending timer may fire next. */
module Toast {
  import opened Common

  /** A toast element: its message, its class list, and its icon. */
  datatype ToastElement = ToastElement(message: string, className: string, icon: char)

  /** A scheduled callback: the auto-dismiss of `show`, or the removal
      `dismiss` schedules 300 ms after starting the slide-out. */
  datatype Timer = AutoDismiss(id: nat) | Finish(id: nat)

  /** Every element created so far (element `i` is `created[i]`), the
      `toasts` array, the elements attached to the container, those
      carrying the `removing` class, and the timers not yet fired. */
  datatype ToastState = ToastState(created: seq<ToastElement>, toasts: seq<nat>, attached: set<nat>,
                                   removing: set<nat>, pending: seq<Timer>)

  const Success := '\U{2713}'
  const Cross := '\U{2715}'
  const WarningSign := '\U{26A0}'
  const InfoSign := '\U{2139}'

  /** `icons[type] || icons.info`. */
  function Icon(kind: string): (c: char)
    ensures kind == "success" ==> c == Success
    ensures kind == "error" ==> c == Cross
    ensures kind == "warning" ==> c == WarningSign
    ensures kind !in {"success", "error", "warning"} ==> c == InfoSign
  {
    if kind == "success" then Success
    else if kind == "error" then Cross
    else if kind == "warning" then WarningSign
    else InfoSign
  }

  /** Each of the four types has its own icon, and every other type shows
      the one of `info`. */
  lemma IconsDistinct(kind: string)
    ensures kind !in {"success", "error", "warning", "info"} ==> Icon(kind) == Icon("info")
    ensures Icon(kind) == Icon("info") <==> kind !in {"success", "error", "warning"}
  {
  }

  /** `createToast(message, type)`. */
  function ToastOf(message: string, kind: string): ToastElement {
    ToastElement(message, "toast toast-" + kind, Icon(kind))
  }

  /** No element is twice in a sequence. */
  predicate Distinct(ids: seq<nat>) {
    forall i, j :: 0 <= i < j < |ids| ==> ids[i] != ids[j]
  }

  /** The array lists elements that exist, each once, and exactly the
      elements still attached to the container. */
  ghost predicate Valid(st: ToastState) {
    && (forall i :: 0 <= i < |st.toasts| ==> st.toasts[i] < |st.created|)
    && Distinct(st.toasts)
    && (forall id :: id in st.attached <==> id in st.toasts)
  }

  // ---- the array operations -------------------------------------------

  /** `ids.indexOf(id)`: the first position holding `id`, or -1. */
  function IndexOf<T(==)>(ids: seq<T>, id: T): (k: int)
    ensures -1 <= k < |ids|
    ensures k >= 0 ==> ids[k] == id
  {
    if ids == [] then -1
    else if ids[0] == id then 0
    else
      var k := IndexOf(ids[1..], id);
      if k < 0 then -1 else k + 1
  }

  /** `ids` without the first occurrence of `id`. */
  function RemoveFirst<T(==)>(ids: seq<T>, id: T): seq<T> {
    if ids == [] then []
    else if ids[0] == id then ids[1..]
    else [ids[0]] + RemoveFirst(ids[1..], id)
  }

  /** `indexOf` finds the first occurrence, and -1 only for an absent
      element. */
  lemma {:induction false} IndexOfFirst<T>(ids: seq<T>, id: T)
    ensures IndexOf(ids, id) == -1 <==> id !in ids
    ensures forall j :: 0 <= j < IndexOf(ids, id) ==> ids[j] != id
  {
    if ids != [] && ids[0] != id {
      IndexOfFirst(ids[1..], id);
      assert forall x :: x in ids <==> x == ids[0] || x in ids[1..];
    }
  }

  /** When `indexOf` finds nothing, there is nothing to remove. */
  lemma {:induction false} RemoveAbsent<T>(ids: seq<T>, id: T)
    requires IndexOf(ids, id) < 0
    ensures RemoveFirst(ids, id) == ids
  {
    if ids != [] {
      RemoveAbsent(ids[1..], id);
    }
  }

  /** `splice(indexOf(id), 1)` removes the first occurrence of `id` and
      nothing else. */
  lemma {:induction false} SpliceRemovesFirst<T>(ids: seq<T>, id: T)
    requires IndexOf(ids, id) >= 0
    ensures ids[..IndexOf(ids, id)] + ids[IndexOf(ids, id) + 1..] == RemoveFirst(ids, id)
  {
    if ids[0] == id {
      assert ids[..0] + ids[1..] == ids[1..];
    } else {
      SpliceRemovesFirst(ids[1..], id);
      SpliceBehindHead(ids, id);
    }
  }

  /** When the head is not `id`, splicing `id` out of the whole sequence
      is splicing it out of the tail. */
  lemma SpliceBehindHead<T>(ids: seq<T>, id: T)
    requires ids != [] && ids[0] != id && IndexOf(ids[1..], id) >= 0
    requires ids[1..][..IndexOf(ids[1..], id)] + ids[1..][IndexOf(ids[1..], id) + 1..] == RemoveFirst(ids[1..], id)
    ensures IndexOf(ids, id) >= 0
    ensures ids[..IndexOf(ids, id)] + ids[IndexOf(ids, id) + 1..] == RemoveFirst(ids, id)
  {
    SpliceStep(ids, IndexOf(ids[1..], id));
  }

  /** Cutting position `kt + 1` out of `ids` keeps its head before the cut
      of position `kt` out of its tail. */
  lemma SpliceStep<T>(ids: seq<T>, kt: nat)
    requires kt + 1 < |ids|
    ensures ids[..kt + 1] + ids[kt + 2..] == [ids[0]] + (ids[1..][..kt] + ids[1..][kt + 1..])
  {
    assert ids[..kt + 1] == [ids[0]] + ids[1..][..kt];
    assert ids[kt + 2..] == ids[1..][kt + 1..];
  }

  /** Cutting out position `k` shifts the later entries down by one. */
  lemma Cut<T>(ids: seq<T>, k: nat, r: seq<T>)
    requires k < |ids| && r == ids[..k] + ids[k + 1..]
    ensures |r| == |ids| - 1
    ensures forall i :: 0 <= i < k ==> r[i] == ids[i]
    ensures forall i :: k <= i < |r| ==> r[i] == ids[i + 1]
  {
  }

  /** Removing keeps the other entries in their relative order: the result
      is the sequence with one position `k` cut out, `k` holding `id`, or
      the sequence itself when `id` is absent. */
  lemma RemoveFirstCuts(ids: seq<nat>, id: nat)
    ensures id !in ids ==> RemoveFirst(ids, id) == ids
    ensures id in ids ==> exists k :: 0 <= k < |ids| && ids[k] == id &&
                                      RemoveFirst(ids, id) == ids[..k] + ids[k + 1..]
  {
    IndexOfFirst(ids, id);
    if IndexOf(ids, id) < 0 {
      RemoveAbsent(ids, id);
    } else {
      SpliceRemovesFirst(ids, id);
    }
  }

  /** A distinct sequence no longer holds `id` once it is removed, holds
      every other entry still, and stays distinct. */
  lemma RemoveFirstFacts(ids: seq<nat>, id: nat)
    requires Distinct(ids)
    ensures Distinct(RemoveFirst(ids, id))
    ensures forall x :: x in RemoveFirst(ids, id) <==> x in ids && x != id
  {
    var k := IndexOf(ids, id);
    IndexOfFirst(ids, id);
    if k < 0 {
      RemoveAbsent(ids, id);
    } else {
      SpliceRemovesFirst(ids, id);
      CutMembers(ids, k, ids[..k] + ids[k + 1..]);
    }
  }

  /** Cutting position `k` out of a distinct sequence leaves it distinct
      and holding every entry but the one at `k`. */
  lemma CutMembers(ids: seq<nat>, k: nat, r: seq<nat>)
    requires Distinct(ids) && k < |ids| && r == ids[..k] + ids[k + 1..]
    ensures Distinct(r)
    ensures forall x :: x in r <==> x in ids && x != ids[k]
  {
    Cut(ids, k, r);
    forall x ensures x in r <==> x in ids && x != ids[k] {
      if x in ids && x != ids[k] {
        var i :| 0 <= i < |ids| && ids[i] == x;
        assert r[if i < k then i else i - 1] == x;
      }
    }
  }

  // ---- the operations on the state --------------------------------------

  /** `show(message, type, duration)`: the new element is attached and
      appended to the array, and its auto-dismiss is scheduled only for a
      positive duration. */
  function Shown(st: ToastState, message: string, kind: string, duration: int): ToastState {
    var id := |st.created|;
    st.(created := st.created + [ToastOf(message, kind)],
        toasts := st.toasts + [id],
        attached := st.attached + {id},
        pending := st.pending + if duration > 0 then [AutoDismiss(id)] else [])
  }

  /** `dismiss(toast)`: nothing for a missing or detached element; otherwise
      it starts sliding out and its removal is scheduled. */
  function Dismissed(st: ToastState, t: Option<nat>): ToastState {
    if t.None? || t.value !in st.attached then st
    else st.(removing := st.removing + {t.value}, pending := st.pending + [Finish(t.value)])
  }

  /** Timer `i` fires: it leaves the pending list and runs. An auto-dismiss
      dismisses its element; a removal detaches the element and takes it
      out of the array. */
  function Fired(st: ToastState, i: nat): ToastState
    requires i < |st.pending|
  {
    var rest := st.(pending := st.pending[..i] + st.pending[i + 1..]);
    match st.pending[i]
    case AutoDismiss(id) => Dismissed(rest, Some(id))
    case Finish(id) => rest.(attached := rest.attached - {id}, toasts := RemoveFirst(rest.toasts, id))
  }

  /** Dismissing each of `ids` in turn. */
  function DismissEach(st: ToastState, ids: seq<nat>): ToastState {
    if ids == [] then st
    else Dismissed(DismissEach(st, ids[..|ids| - 1]), Some(ids[|ids| - 1]))
  }

  /** One removal per element, in the given order. */
  function Finishes(ids: seq<nat>): (r: seq<Timer>)
    ensures |r| == |ids| && forall i :: 0 <= i < |ids| ==> r[i] == Finish(ids[i])
  {
    seq(|ids|, i requires 0 <= i < |ids| => Finish(ids[i]))
  }

  // ---- properties -------------------------------------------------------

  /** `show` appends a new element at the end of the array and leaves the
      earlier entries in place, so the array stays valid; it schedules an
      auto-dismiss exactly when the duration is positive. */
  lemma ShowAppends(st: ToastState, message: string, kind: string, duration: int)
    requires Valid(st)
    ensures var t := Shown(st, message, kind, duration);
            && Valid(t)
            && t.toasts[..|st.toasts|] == st.toasts
            && t.toasts[|st.toasts|] !in st.toasts
            && t.created[t.toasts[|st.toasts|]] == ToastOf(message, kind)
            && (|t.pending| > |st.pending| <==> duration > 0)
  {
    var t := Shown(st, message, kind, duration);
    assert t.toasts[..|st.toasts|] == st.toasts;
  }

  /** A missing or detached element is not dismissed: nothing changes. */
  lemma DismissDetachedNoOp(st: ToastState, t: Option<nat>)
    requires Valid(st)
    requires t.None? || t.value !in st.toasts
    ensures Dismissed(st, t) == st
  {
  }

  /** Every step keeps the array valid. */
  lemma FiredKeepsValid(st: ToastState, i: nat)
    requires Valid(st) && i < |st.pending|
    ensures Valid(Fired(st, i))
  {
    if st.pending[i].Finish? {
      var id := st.pending[i].id;
      RemoveFirstFacts(st.toasts, id);
      var r := RemoveFirst(st.toasts, id);
      forall j | 0 <= j < |r| ensures r[j] < |st.created| {
        assert r[j] in st.toasts;
      }
    }
  }

  /** A removal takes its element out of the array, detached, keeping the
      other entries in their order; a removal of an element already gone
      changes nothing but the pending list. */
  lemma FinishRemovesOnce(st: ToastState, i: nat)
    requires Valid(st) && i < |st.pending| && st.pending[i].Finish?
    ensures var id := st.pending[i].id;
            var t := Fired(st, i);
            && id !in t.toasts && id !in t.attached
            && (id in st.toasts ==> exists k :: 0 <= k < |st.toasts| && st.toasts[k] == id &&
                                                t.toasts == st.toasts[..k] + st.toasts[k + 1..])
            && (id !in st.toasts ==> t == st.(pending := t.pending))
  {
    RemoveFirstFacts(st.toasts, st.pending[i].id);
    RemoveFirstCuts(st.toasts, st.pending[i].id);
  }

  /** Dismissing an element twice before its removal fires ends in the same
      array, attachments and pending timers as dismissing it once: the
      second removal finds it neither attached nor in the array. */
  lemma DismissTwiceSameAsOnce(st: ToastState, id: nat)
    requires Valid(st) && id in st.toasts
    ensures var d := Dismissed(st, Some(id));
            var n := |st.pending|;
            var once := Fired(d, n);
            var twice := Fired(Fired(Dismissed(d, Some(id)), n), n);
            && twice.toasts == once.toasts && twice.attached == once.attached
            && twice.pending == once.pending
  {
    var d := Dismissed(st, Some(id));
    var n := |st.pending|;
    var d2 := Dismissed(d, Some(id));
    var once := Fired(d, n);
    var f1 := Fired(d2, n);
    RemoveFirstFacts(st.toasts, id);
    assert d.pending[..n] + d.pending[n + 1..] == st.pending;
    assert d2.pending[..n] + d2.pending[n + 1..] == st.pending + [Finish(id)];
    assert f1.toasts == once.toasts;
    assert id !in f1.toasts;
    RemoveFirstCuts(f1.toasts, id);
    assert f1.pending[..n] + f1.pending[n + 1..] == st.pending;
  }

  /** `dismissAll()` dismisses every element in the array at call time:
      each gets the `removing` class and one removal, in array order; the
      array itself is untouched until those fire. */
  lemma {:induction false} DismissEachAttached(st: ToastState, ids: seq<nat>)
    requires forall i :: 0 <= i < |ids| ==> ids[i] in st.attached
    ensures var t := DismissEach(st, ids);
            && t.created == st.created && t.toasts == st.toasts && t.attached == st.attached
            && (forall x :: x in t.removing <==> x in st.removing || x in ids)
            && t.pending == st.pending + Finishes(ids)
  {
    if ids != [] {
      var front := ids[..|ids| - 1];
      DismissEachAttached(st, front);
      assert Finishes(ids) == Finishes(front) + [Finish(ids[|ids| - 1])];
      forall x | x in ids ensures x in front || x == ids[|ids| - 1] {
        var i :| 0 <= i < |ids| && ids[i] == x;
        if i < |ids| - 1 {
          assert front[i] == x;
        }
      }
    }
  }

  /** In a valid state every element in the array is attached, so
      `dismissAll()` schedules a removal for each of them. */
  lemma DismissAllDismissesEvery(st: ToastState)
    requires Valid(st)
    ensures var t := DismissEach(st, st.toasts);
            && t.toasts == st.toasts
            && (forall x :: x in t.removing <==> x in st.removing || x in st.toasts)
            && t.pending == st.pending + Finishes(st.toasts)
  {
    DismissEachAttached(st, st.toasts);
  }

  // ---- the class --------------------------------------------------------

  /** `ToastNotification`. */
  class ToastNotification {
    var created: seq<ToastElement>
    var toasts: seq<nat>
    var attached: set<nat>
    var removing: set<nat>
    var pending: seq<Timer>

    function State(): ToastState
      reads this
    {
      ToastState(created, toasts, attached, removing, pending)
    }

    /** `new ToastNotification()`: an empty container and array. */
    constructor ()
      ensures State() == ToastState([], [], {}, {}, []) && Valid(State())
    {
      created := [];
      toasts := [];
      attached := {};
      removing := {};
      pending := [];
    }

    /** `show(message, type = 'info', duration = 3000)`; returns the new
        element. */
    method Show(message: string, kind: string := "info", duration: int := 3000) returns (id: nat)
      modifies this
      ensures id == |old(created)| && State() == Shown(old(State()), message, kind, duration)
    {
      id := |created|;
      created := created + [ToastOf(message, kind)];
      attached := attached + {id};
      toasts := toasts + [id];
      if duration > 0 {
        pending := pending + [AutoDismiss(id)];
      }
    }

    /** `dismiss(toast)`; `None` stands for `null` or `undefined`. */
    method Dismiss(t: Option<nat>)
      modifies this
      ensures State() == Dismissed(old(State()), t)
    {
      if t.None? || t.value !in attached {
        return;
      }
      removing := removing + {t.value};
      pending := pending + [Finish(t.value)];
    }

    /** The `i`-th pending timer fires. */
    method Fire(i: nat)
      requires i < |pending|
      modifies this
      ensures State() == Fired(old(State()), i)
    {
      var timer := pending[i];
      pending := pending[..i] + pending[i + 1..];
      match timer
      case AutoDismiss(id) =>
        Dismiss(Some(id));
      case Finish(id) =>
        if id in attached {
          attached := attached - {id};
        }
        var index := IndexOf(toasts, id);
        if index > -1 {
          SpliceRemovesFirst(toasts, id);
          toasts := toasts[..index] + toasts[index + 1..];
        } else {
          RemoveAbsent(toasts, id);
        }
    }

    /** `dismissAll()`: `forEach` over the array, which `dismiss` does not
        change. */
    method DismissAll()
      modifies this
      ensures State() == DismissEach(old(State()), old(toasts))
    {
      var i := 0;
      while i < |toasts|
        invariant 0 <= i <= |toasts| && toasts == old(toasts)
        invariant State() == DismissEach(old(State()), toasts[..i])
      {
        assert toasts[..i + 1][..i] == toasts[..i];
        Dismiss(Some(toasts[i]));
        i := i + 1;
      }
      assert toasts[..i] == toasts;
    }

    /** `success(message, duration = 3000)`. */
    method ShowSuccess(message: string, duration: int := 3000) returns (id: nat)
      modifies this
      ensures id == |old(created)| && State() == Shown(old(State()), message, "success", duration)
    {
      id := Show(message, "success", duration);
    }

    /** `error(message, duration = 4000)`. */
    method ShowError(message: string, duration: int := 4000) returns (id: nat)
      modifies this
      ensures id == |old(created)| && State() == Shown(old(State()), message, "error", duration)
    {
      id := Show(message, "error", duration);
    }

    /** `warning(message, duration = 3500)`. */
    method ShowWarning(message: string, duration: int := 3500) returns (id: nat)
      modifies this
      ensures id == |old(created)| && State() == Shown(old(State()), message, "warning", duration)
    {
      id := Show(message, "warning", duration);
    }

    /** `info(message, duration = 3000)`. */
    method ShowInfo(message: string, duration: int := 3000) returns (id: nat)
      modifies this
      ensures id == |old(created)| && State() == Shown(old(State()), message, "info", duration)
    {
      id := Show(message, "info", duration);
    }
  }
}
