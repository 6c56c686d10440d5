/**
 * The progress reporter: counters of processed and successful files, an
 * enabled flag, and a presentation that is absent, a spinner ("tick") or a
 * determinate bar. The bar is abstracted to its total and its position.
 */
module Progress {

  datatype Bar = Bar(total: nat, position: nat)

  /** The presentation in use: a determinate bar, a spinner, or nothing. */
  datatype ProgressType = Inc(bar: Bar) | Tick | None

  /** One bar step: `inc` advances a determinate bar, and leaves a spinner or nothing as it is. */
  function Stepped(pb: ProgressType): (r: ProgressType)
    ensures r.Inc? <==> pb.Inc?
    ensures pb.Inc? ==> r.bar == Bar(pb.bar.total, pb.bar.position + 1)
    ensures !pb.Inc? ==> r == pb
  {
    match pb
    case Inc(Bar(total, position)) => Inc(Bar(total, position + 1))
    case Tick => Tick
    case None => None
  }

  class Progress {
    var count: nat
    var success: nat
    var enabled: bool
    var pb: ProgressType

    /** Successes are among the processed files, and a bar shows the processed count. */
    ghost predicate Valid()
      reads this
    {
      success <= count && (pb.Inc? ==> pb.bar.position == count)
    }

    constructor ()
      ensures Valid()
      ensures count == 0 && success == 0 && !enabled && pb == None
    {
      count := 0;
      success := 0;
      enabled := false;
      pb := None;
    }

    method SetEnabled(value: bool)
      requires Valid()
      modifies this
      ensures Valid()
      ensures enabled == value
      ensures count == old(count) && success == old(success) && pb == old(pb)
    {
      enabled := value;
    }

    /** Switches to the spinner; a disabled reporter changes nothing. */
    method BuildStatus()
      requires Valid()
      modifies this
      ensures Valid()
      ensures pb == if old(enabled) then Tick else old(pb)
      ensures count == old(count) && success == old(success) && enabled == old(enabled)
    {
      if !enabled {
        return;
      }
      pb := Tick;
    }

    /** Switches to a bar of the given total, positioned at the processed count; a disabled reporter changes nothing. */
    method BuildBar(total: nat)
      requires Valid()
      modifies this
      ensures Valid()
      ensures pb == if old(enabled) then ProgressType.Inc(Bar(total, old(count))) else old(pb)
      ensures count == old(count) && success == old(success) && enabled == old(enabled)
    {
      if !enabled {
        return;
      }
      pb := ProgressType.Inc(Bar(total, count));
    }

    /** One more processed file; a bar advances by one. */
    method Inc()
      requires Valid()
      modifies this
      ensures Valid()
      ensures count == old(count) + 1 && success == old(success)
      ensures pb == Stepped(old(pb))
      ensures enabled == old(enabled)
    {
      count := count + 1;
      match pb
      case None =>
      case Inc(Bar(total, position)) =>
        pb := ProgressType.Inc(Bar(total, position + 1));
      case Tick =>
    }

    /** One more processed file that succeeded. */
    method IncSuccess()
      requires Valid()
      modifies this
      ensures Valid()
      ensures count == old(count) + 1 && success == old(success) + 1
      ensures pb == Stepped(old(pb))
      ensures enabled == old(enabled)
    {
      Inc();
      success := success + 1;
    }
  }
}
