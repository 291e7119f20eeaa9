/**
 * The toast registry: a map from toast id to toast, the container's children
 * in display order, the stacking position, and the timers that dismiss a
 * toast and, 300 ms after a dismissal, take it out of the registry.
 *
 * Time is a logical clock. A timer fires only when the event loop says so
 * (method Fire), earliest due time first and, among equal due times, in the
 * order the timers were set. Ids come from the caller, since the source draws
 * them at random.
 */
module Toast {
  import opened Common

  datatype ToastType = Success | Error | Info | Warning | Loading

  datatype Position = TopLeft | TopRight | BottomLeft | BottomRight | TopCenter | BottomCenter

  function PositionName(p: Position): string {
    match p
    case TopLeft => "top-left"
    case TopRight => "top-right"
    case BottomLeft => "bottom-left"
    case BottomRight => "bottom-right"
    case TopCenter => "top-center"
    case BottomCenter => "bottom-center"
  }

  /** Where a toast slides in from and out to: the source tests the
      position's name for "right", then for "left". */
  function SlideOffset(p: Position): (offset: string)
    ensures offset == "100%" || offset == "-100%" || offset == "0"
    ensures offset == "100%" <==> Includes(PositionName(p), "right")
  {
    if Includes(PositionName(p), "right") then "100%"
    else if Includes(PositionName(p), "left") then "-100%"
    else "0"
  }

  /** A new toast goes on top of the stack when the position's name mentions
      "bottom". */
  predicate StacksFromBottom(p: Position) {
    Includes(PositionName(p), "bottom")
  }

  /** The bottom positions, by name. */
  predicate IsBottom(p: Position) {
    p == BottomLeft || p == BottomRight || p == BottomCenter
  }

  lemma TopLeftName()
    ensures !Includes("top-left", "right") && Includes("top-left", "left") && !Includes("top-left", "bottom")
  {
    var s := "top-left";
    assert forall i :: 0 <= i < |s| ==> s[i] != 'r' && s[i] != 'b';
    NoCandidateStart(s, "right");
    NoCandidateStart(s, "bottom");
    IncludesAt(s, "left", 4);
  }

  lemma TopRightName()
    ensures Includes("top-right", "right") && !Includes("top-right", "bottom")
  {
    var s := "top-right";
    assert forall i :: 0 <= i < |s| ==> s[i] != 'b';
    NoCandidateStart(s, "bottom");
    IncludesAt(s, "right", 4);
  }

  lemma TopCenterName()
    ensures !Includes("top-center", "right") && !Includes("top-center", "left") && !Includes("top-center", "bottom")
  {
    var s := "top-center";
    assert forall i :: 0 <= i < |s| ==> s[i] != 'l' && s[i] != 'b';
    assert forall i :: 0 <= i < 6 ==> s[i] != 'r';
    NoCandidateStart(s, "right");
    NoCandidateStart(s, "left");
    NoCandidateStart(s, "bottom");
  }

  lemma BottomLeftName()
    ensures !Includes("bottom-left", "right") && Includes("bottom-left", "left") && Includes("bottom-left", "bottom")
  {
    var s := "bottom-left";
    assert forall i :: 0 <= i < |s| ==> s[i] != 'r';
    NoCandidateStart(s, "right");
    IncludesAt(s, "left", 7);
    IncludesAt(s, "bottom", 0);
  }

  lemma BottomRightName()
    ensures Includes("bottom-right", "right") && Includes("bottom-right", "bottom")
  {
    IncludesAt("bottom-right", "right", 7);
    IncludesAt("bottom-right", "bottom", 0);
  }

  lemma BottomCenterName()
    ensures !Includes("bottom-center", "right") && !Includes("bottom-center", "left")
  {
    var s := "bottom-center";
    assert forall i :: 0 <= i < 9 ==> s[i] != 'r' && s[i] != 'l';
    NoCandidateStart(s, "right");
    NoCandidateStart(s, "left");
  }

  /** Right-hand positions slide by 100%, left-hand ones by -100%, centred
      ones not at all. */
  lemma SlideOffsets(p: Position)
    ensures SlideOffset(p) == (if p == TopRight || p == BottomRight then "100%"
                               else if p == TopLeft || p == BottomLeft then "-100%"
                               else "0")
  {
    match p
    case TopLeft => TopLeftName();
    case TopRight => TopRightName();
    case TopCenter => TopCenterName();
    case BottomLeft => BottomLeftName();
    case BottomRight => BottomRightName();
    case BottomCenter => BottomCenterName();
  }

  /** The stack grows from the top exactly at the three bottom positions. */
  lemma BottomPositions(p: Position)
    ensures StacksFromBottom(p) <==> IsBottom(p)
  {
    match p
    case TopLeft => TopLeftName();
    case TopRight => TopRightName();
    case TopCenter => TopCenterName();
    case BottomLeft => BottomLeftName();
    case BottomRight => BottomRightName();
    case BottomCenter => IncludesAt(PositionName(p), "bottom", 0);
  }

  type Id = string

  /** A DOM element, by creation number. */
  type ElementId = nat

  /** An action button; its click handler is a callback and not modelled. */
  datatype Action = Action(buttonText: string)

  /** The options of one call; `None` is an absent property. */
  datatype ToastOptions = ToastOptions(
    ttype: Option<ToastType>, duration: Option<int>, position: Option<Position>,
    dismissible: Option<bool>, action: Option<Action>)

  const NoOptions := ToastOptions(None, None, None, None, None)

  datatype ToastItem = ToastItem(
    id: Id, message: string, ttype: ToastType, duration: int,
    dismissible: bool, action: Option<Action>, element: ElementId)

  const DefaultDuration := 3000
  const ErrorDuration := 5000
  /** The exit animation: a dismissed toast leaves the registry this long after. */
  const ExitMs := 300

  /** `options.duration || (options.type === "error" ? 5000 : 3000)`: a given
      duration is kept unless it is zero, which is falsy and falls back to the
      default for the type. The result is never zero. */
  function Duration(o: ToastOptions): (d: int)
    ensures d != 0
    ensures o.duration.Some? && o.duration.value != 0 ==> d == o.duration.value
    ensures o.duration.None? || o.duration.value == 0 ==>
              d == (if o.ttype == Some(Error) then ErrorDuration else DefaultDuration)
  {
    if o.duration.Some? && o.duration.value != 0 then o.duration.value
    else if o.ttype == Some(Error) then ErrorDuration
    else DefaultDuration
  }

  /** The toast that `show` builds from its options: type info unless given,
      dismissible unless explicitly not, the position ignored. */
  function Resolve(id: Id, message: string, o: ToastOptions, element: ElementId): (t: ToastItem)
    ensures t.id == id && t.message == message && t.element == element && t.action == o.action
    ensures o.ttype.None? ==> t.ttype == Info
    ensures o.ttype.Some? ==> t.ttype == o.ttype.value
    ensures t.dismissible <==> o.dismissible != Some(false)
    ensures t.duration == Duration(o)
    ensures t.duration > 0 || (o.duration.Some? && t.duration == o.duration.value < 0)
  {
    ToastItem(id, message, o.ttype.GetOr(Info), Duration(o), o.dismissible != Some(false), o.action, element)
  }

  /** The position in the options plays no part in the toast. */
  lemma ResolveIgnoresPosition(id: Id, message: string, o: ToastOptions, element: ElementId, p: Option<Position>)
    ensures Resolve(id, message, o, element) == Resolve(id, message, o.(position := p), element)
  {
  }

  /** Whether `show` sets a timer that dismisses the toast. */
  predicate AutoDismisses(t: ToastItem) {
    t.duration > 0 && t.ttype != Loading
  }

  /** The options `toast.loading` passes on. */
  function LoadingOptions(o: ToastOptions): (r: ToastOptions)
    ensures r.ttype == Some(Loading) && r.duration == Some(0)
    ensures r.position == o.position && r.dismissible == o.dismissible && r.action == o.action
  {
    o.(ttype := Some(Loading), duration := Some(0))
  }

  /** A loading toast never dismisses itself, whatever the caller's options;
      its recorded duration is the 3000 ms default, since zero is falsy. */
  lemma LoadingNeverAutoDismisses(id: Id, message: string, o: ToastOptions, element: ElementId)
    ensures !AutoDismisses(Resolve(id, message, LoadingOptions(o), element))
    ensures Resolve(id, message, LoadingOptions(o), element).duration == DefaultDuration
  {
  }

  /** Toasts of other types dismiss themselves unless given a negative duration. */
  lemma OthersAutoDismiss(id: Id, message: string, o: ToastOptions, element: ElementId)
    requires o.ttype != Some(Loading)
    ensures AutoDismisses(Resolve(id, message, o, element)) <==> !(o.duration.Some? && o.duration.value < 0)
  {
  }

  /** The delay `setTimeout` actually waits for a requested `d` ms: the
      browser converts it to a 32-bit signed integer (the value modulo 2^32,
      read as two's complement), and a negative delay is zero. */
  function TimerDelay(d: int): (delay: nat)
    ensures delay < 0x8000_0000
    ensures 0 <= d < 0x8000_0000 ==> delay == d
    ensures d % 0x1_0000_0000 < 0x8000_0000 ==> delay == d % 0x1_0000_0000
    ensures d % 0x1_0000_0000 >= 0x8000_0000 ==> delay == 0
  {
    var wrapped := d % 0x1_0000_0000;
    if wrapped < 0x8000_0000 then wrapped else 0
  }

  /** Durations past the 32-bit range do not wait as long as asked: 2^32 + 1000
      waits 1000 ms and 2^31 fires at once. */
  lemma TimerDelayWraps()
    ensures TimerDelay(0x1_0000_0000 + 1000) == 1000
    ensures TimerDelay(0x8000_0000) == 0
    ensures TimerDelay(DefaultDuration) == DefaultDuration && TimerDelay(ErrorDuration) == ErrorDuration
  {
  }

  /** Requested durations 2^32 ms apart wait exactly as long. */
  lemma TimerDelayPeriodic(d: int)
    ensures TimerDelay(d + 0x1_0000_0000) == TimerDelay(d)
  {
  }

  datatype Timer =
    | AutoDismiss(due: nat, id: Id)
    | Removal(due: nat, id: Id, element: ElementId)

  predicate Distinct<T(==)>(s: seq<T>) {
    forall i, j :: 0 <= i < j < |s| ==> s[i] != s[j]
  }

  lemma AddFreshKeepsDistinct<T>(s: seq<T>, x: T)
    requires Distinct(s) && x !in s
    ensures Distinct([x] + s) && Distinct(s + [x])
  {
  }

  /** `s` with `x` taken out, the rest in order. */
  function Without<T(==,!new)>(s: seq<T>, x: T): (r: seq<T>)
    ensures forall y :: y in r <==> y in s && y != x
    ensures x !in s ==> r == s
    ensures Distinct(s) ==> Distinct(r)
    ensures Distinct(s) && x in s ==> |r| == |s| - 1
    decreases |s|
  {
    if s == [] then []
    else if s[0] == x then Without(s[1..], x)
    else
      assert Distinct(s) ==> s[0] !in s[1..];
      [s[0]] + Without(s[1..], x)
  }

  /** Taking `x` out of a concatenation takes it out of each part: the
      remaining entries keep their order. */
  lemma {:induction false} WithoutAppend<T(!new)>(a: seq<T>, b: seq<T>, x: T)
    ensures Without(a + b, x) == Without(a, x) + Without(b, x)
    decreases |a|
  {
    if a == [] {
      assert a + b == b;
    } else {
      assert (a + b)[0] == a[0];
      assert (a + b)[1..] == a[1..] + b;
      WithoutAppend(a[1..], b, x);
    }
  }

  /** `s` with its `i`-th entry taken out. */
  function RemoveAt<T>(s: seq<T>, i: nat): (r: seq<T>)
    requires i < |s|
    ensures |r| == |s| - 1
    ensures forall j :: 0 <= j < i ==> r[j] == s[j]
    ensures forall j :: i <= j < |r| ==> r[j] == s[j + 1]
  {
    s[..i] + s[i + 1..]
  }

  /** Timer `i` is the one the event loop runs next: none is due earlier, and
      none set before it is due at the same time. */
  predicate IsNext(timers: seq<Timer>, i: nat) {
    i < |timers|
    && (forall j :: 0 <= j < |timers| ==> timers[i].due <= timers[j].due)
    && (forall j :: 0 <= j < i ==> timers[i].due < timers[j].due)
  }

  /** The removals `dismissAll` sets, one per id of `keys`, in that order. */
  function Removals(keys: seq<Id>, toasts: map<Id, ToastItem>, due: nat): (r: seq<Timer>)
    requires forall k :: k in keys ==> k in toasts
    ensures |r| == |keys|
    ensures forall j :: 0 <= j < |keys| ==> r[j] == Removal(due, keys[j], toasts[keys[j]].element)
    decreases |keys|
  {
    if keys == [] then []
    else Removals(keys[..|keys| - 1], toasts, due) + [Removal(due, keys[|keys| - 1], toasts[keys[|keys| - 1]].element)]
  }

  /** The toast manager singleton. */
  class ToastManager {
    /** The registry. */
    var toasts: map<Id, ToastItem>
    /** The registry's keys in insertion order, the order it is iterated in. */
    var order: seq<Id>
    /** The container's children, first to last. */
    var children: seq<ElementId>
    var position: Position
    var clock: nat
    /** The next element to be created. */
    var nextElement: ElementId
    /** Pending timers, in the order they were set. */
    var timers: seq<Timer>

    ghost predicate Valid()
      reads this
    {
      RegistryValid() && ContainerValid() && TimersValid()
    }

    /** `order` lists each registered id once, and each toast is filed under
        its own id. */
    ghost predicate RegistryValid()
      reads this`toasts, this`order
    {
      && Distinct(order)
      && (forall k :: k in toasts <==> k in order)
      && (forall k :: k in toasts ==> toasts[k].id == k)
    }

    /** Each element appears at most once, and only elements already created. */
    ghost predicate ContainerValid()
      reads this`children, this`nextElement
    {
      Distinct(children) && forall e :: e in children ==> e < nextElement
    }

    /** No pending timer is overdue. */
    ghost predicate TimersValid()
      reads this`clock, this`timers
    {
      forall i :: 0 <= i < |timers| ==> clock <= timers[i].due
    }

    constructor (now: nat)
      ensures Valid()
      ensures toasts == map[] && order == [] && children == [] && timers == []
      ensures position == TopRight && clock == now && nextElement == 0
    {
      toasts := map[];
      order := [];
      children := [];
      position := TopRight;
      clock := now;
      nextElement := 0;
      timers := [];
    }

    /** `setPosition`: an absent position means top-right. */
    method SetPosition(p: Option<Position>)
      modifies this`position
      ensures position == p.GetOr(TopRight)
      ensures p.None? ==> position == TopRight
    {
      position := p.GetOr(TopRight);
    }

    /** `show`: registers the toast under `id` (drawn by the caller), puts a new
        element on top of the stack or at its end, and sets the auto-dismiss
        timer when the toast has one. Nothing else in the registry changes. */
    method Show(message: string, options: ToastOptions, id: Id) returns (r: Id)
      requires Valid()
      modifies this`toasts, this`order, this`children, this`nextElement, this`timers
      ensures Valid()
      ensures r == id
      ensures toasts == old(toasts)[id := Resolve(id, message, options, old(nextElement))]
      ensures forall k :: k in old(toasts) && k != id ==> k in toasts && toasts[k] == old(toasts)[k]
      ensures order == if id in old(toasts) then old(order) else old(order) + [id]
      ensures nextElement == old(nextElement) + 1
      ensures IsBottom(position) ==> children == [old(nextElement)] + old(children)
      ensures !IsBottom(position) ==> children == old(children) + [old(nextElement)]
      ensures AutoDismisses(toasts[id]) ==> timers == old(timers) + [AutoDismiss(clock + TimerDelay(toasts[id].duration), id)]
      ensures !AutoDismisses(toasts[id]) ==> timers == old(timers)
    {
      var item := Resolve(id, message, options, nextElement);
      Register(item);
      Place(item.element);
      if AutoDismisses(item) {
        timers := timers + [AutoDismiss(clock + TimerDelay(item.duration), id)];
      }
      r := id;
    }

    /** `this.toasts.set(id, toast)`: a new key goes last in iteration order,
        a known one keeps its place. */
    method Register(item: ToastItem)
      requires RegistryValid()
      modifies this`toasts, this`order
      ensures RegistryValid()
      ensures toasts == old(toasts)[item.id := item]
      ensures order == if item.id in old(toasts) then old(order) else old(order) + [item.id]
    {
      if item.id !in toasts {
        AddFreshKeepsDistinct(order, item.id);
        order := order + [item.id];
      }
      toasts := toasts[item.id := item];
    }

    /** Puts the newly created element first in a bottom stack, last otherwise. */
    method Place(element: ElementId)
      requires ContainerValid() && element == nextElement
      modifies this`children, this`nextElement
      ensures ContainerValid()
      ensures nextElement == old(nextElement) + 1
      ensures IsBottom(position) ==> children == [element] + old(children)
      ensures !IsBottom(position) ==> children == old(children) + [element]
    {
      AddFreshKeepsDistinct(children, element);
      nextElement := nextElement + 1;
      if IsBottom(position) {
        children := [element] + children;
      } else {
        children := children + [element];
      }
    }

    /** `dismiss`: an unknown id changes nothing; a known one gets a removal
        timer for its current element, due after the exit animation. */
    method Dismiss(id: Id)
      requires TimersValid()
      modifies this`timers
      ensures TimersValid()
      ensures id !in toasts ==> timers == old(timers)
      ensures id in toasts ==> timers == old(timers) + [Removal(clock + ExitMs, id, toasts[id].element)]
    {
      if id in toasts {
        timers := timers + [Removal(clock + ExitMs, id, toasts[id].element)];
      }
    }

    /** `dismissAll`: dismisses every registered toast, in registry order. */
    method DismissAll()
      requires Valid()
      modifies this`timers
      ensures Valid()
      ensures timers == old(timers) + Removals(order, toasts, clock + ExitMs)
    {
      for i := 0 to |order|
        invariant TimersValid()
        invariant timers == old(timers) + Removals(order[..i], toasts, clock + ExitMs)
      {
        assert order[..i + 1][..i] == order[..i];
        Dismiss(order[i]);
      }
      assert order[..|order|] == order;
    }

    /** `update`: an unknown id changes nothing. Otherwise the toast is
        dismissed and a new one shown under `newId`, keeping the old type
        unless the options give one. */
    method Update(id: Id, message: string, options: ToastOptions, newId: Id)
      requires Valid()
      modifies this`toasts, this`order, this`children, this`nextElement, this`timers
      ensures Valid()
      ensures id !in old(toasts) ==>
                toasts == old(toasts) && order == old(order) && children == old(children)
                && nextElement == old(nextElement) && timers == old(timers)
      ensures id in old(toasts) ==>
                toasts == old(toasts)[newId := Resolve(newId, message,
                                      options.(ttype := Some(options.ttype.GetOr(old(toasts)[id].ttype))),
                                      old(nextElement))]
      ensures id in old(toasts) ==>
                && order == (if newId in old(toasts) then old(order) else old(order) + [newId])
                && nextElement == old(nextElement) + 1
                && (IsBottom(position) ==> children == [old(nextElement)] + old(children))
                && (!IsBottom(position) ==> children == old(children) + [old(nextElement)])
      ensures id in old(toasts) ==>
                timers == old(timers) + [Removal(clock + ExitMs, id, old(toasts)[id].element)]
                          + (if AutoDismisses(toasts[newId])
                             then [AutoDismiss(clock + TimerDelay(toasts[newId].duration), newId)] else [])
    {
      if id !in toasts {
        return;
      }
      var oldType := toasts[id].ttype;
      Dismiss(id);
      ghost var dismissed := timers;
      var merged := options.(ttype := Some(options.ttype.GetOr(oldType)));
      var _ := Show(message, merged, newId);
      assert timers == dismissed + (if AutoDismisses(toasts[newId])
                                    then [AutoDismiss(clock + TimerDelay(toasts[newId].duration), newId)] else []);
    }

    /** The event loop advances the clock, firing no timer on the way. */
    method AdvanceClock(now: nat)
      requires Valid()
      requires clock <= now
      requires forall i :: 0 <= i < |timers| ==> now <= timers[i].due
      modifies this`clock
      ensures Valid() && clock == now
    {
      clock := now;
    }

    /** The event loop runs timer `i`. An auto-dismiss timer dismisses its
        toast if it is still registered; a removal takes the element out of
        the container if it is still there and deletes the id from the
        registry. */
    method Fire(i: nat)
      requires Valid() && IsNext(timers, i)
      modifies this`clock, this`timers, this`toasts, this`order, this`children
      ensures Valid()
      ensures clock == old(timers[i]).due
      ensures old(timers[i]).AutoDismiss? ==>
                toasts == old(toasts) && order == old(order) && children == old(children)
                && timers == RemoveAt(old(timers), i)
                             + (if old(timers[i]).id in old(toasts)
                                then [Removal(clock + ExitMs, old(timers[i]).id, old(toasts)[old(timers[i]).id].element)]
                                else [])
      ensures old(timers[i]).Removal? ==>
                toasts == old(toasts) - {old(timers[i]).id}
                && order == Without(old(order), old(timers[i]).id)
                && children == Without(old(children), old(timers[i]).element)
                && timers == RemoveAt(old(timers), i)
    {
      var t := timers[i];
      clock := t.due;
      timers := RemoveAt(timers, i);
      match t
      case AutoDismiss(_, id) =>
        Dismiss(id);
      case Removal(_, id, element) =>
        Delete(id, element);
    }

    /** The body of a removal timer: the element leaves the container if it is
        still there, and the id leaves the registry. */
    method Delete(id: Id, element: ElementId)
      requires RegistryValid() && ContainerValid()
      modifies this`children, this`toasts, this`order
      ensures RegistryValid() && ContainerValid()
      ensures children == Without(old(children), element)
      ensures toasts == old(toasts) - {id}
      ensures order == Without(old(order), id)
    {
      children := Without(children, element);
      toasts := toasts - {id};
      order := Without(order, id);
    }

    /** `toast.success`, `toast.error`, `toast.info`, `toast.warning`: `show`
        with the type forced. */
    method ShowTyped(message: string, options: ToastOptions, kind: ToastType, id: Id) returns (r: Id)
      requires Valid() && kind != Loading
      modifies this`toasts, this`order, this`children, this`nextElement, this`timers
      ensures Valid() && r == id
      ensures toasts == old(toasts)[id := Resolve(id, message, options.(ttype := Some(kind)), old(nextElement))]
      ensures toasts[id].ttype == kind
      ensures order == if id in old(toasts) then old(order) else old(order) + [id]
      ensures nextElement == old(nextElement) + 1
      ensures IsBottom(position) ==> children == [old(nextElement)] + old(children)
      ensures !IsBottom(position) ==> children == old(children) + [old(nextElement)]
      ensures AutoDismisses(toasts[id]) ==> timers == old(timers) + [AutoDismiss(clock + TimerDelay(toasts[id].duration), id)]
      ensures !AutoDismisses(toasts[id]) ==> timers == old(timers)
    {
      r := Show(message, options.(ttype := Some(kind)), id);
    }

    /** `toast.loading`: type loading and duration zero, so no timer is set. */
    method ShowLoading(message: string, options: ToastOptions, id: Id) returns (r: Id)
      requires Valid()
      modifies this`toasts, this`order, this`children, this`nextElement, this`timers
      ensures Valid() && r == id
      ensures toasts == old(toasts)[id := Resolve(id, message, LoadingOptions(options), old(nextElement))]
      ensures order == if id in old(toasts) then old(order) else old(order) + [id]
      ensures nextElement == old(nextElement) + 1
      ensures IsBottom(position) ==> children == [old(nextElement)] + old(children)
      ensures !IsBottom(position) ==> children == old(children) + [old(nextElement)]
      ensures timers == old(timers)
    {
      LoadingNeverAutoDismisses(id, message, options, nextElement);
      r := Show(message, LoadingOptions(options), id);
    }

    /** `showToast`: moves the stack to the bottom right, then shows a toast of
        the given kind with default options. It always goes on top of the
        stack and always dismisses itself. */
    method ShowToast(message: string, kind: ShowKind, id: Id)
      requires Valid()
      modifies this`position, this`toasts, this`order, this`children, this`nextElement, this`timers
      ensures Valid()
      ensures position == BottomRight
      ensures toasts == old(toasts)[id := Resolve(id, message, NoOptions.(ttype := Some(TypeOf(kind))), old(nextElement))]
      ensures order == if id in old(toasts) then old(order) else old(order) + [id]
      ensures nextElement == old(nextElement) + 1
      ensures children == [old(nextElement)] + old(children)
      ensures timers == old(timers) + [AutoDismiss(clock + (if kind == ErrorToast then ErrorDuration else DefaultDuration), id)]
    {
      SetPosition(Some(BottomRight));
      var _ := ShowTyped(message, NoOptions, TypeOf(kind), id);
    }
  }

  /** The kinds `showToast` accepts; anything else is shown as info. */
  datatype ShowKind = SuccessToast | ErrorToast | InfoToast

  function TypeOf(k: ShowKind): (t: ToastType)
    ensures t != Loading && t != Warning
    ensures t == Error <==> k == ErrorToast
  {
    match k
    case SuccessToast => Success
    case ErrorToast => Error
    case InfoToast => Info
  }
}
