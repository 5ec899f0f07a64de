/** The receiver (big3/odbiornik.cpp): the session filter of `data_loop` and the printer of `printing_loop`. */
module Receivers {
  import opened Bytes
  import opened Window
  import opened WindowFacts
  import opened WindowSteps
  import opened Buffers
  import opened Wire

  /**
   * A printed package. `first` marks the first one after a moment when the window was empty, `skipped` counts the
   * packages evicted unprinted between it and the one printed before it.
   */
  datatype Printed = Printed(num: nat, data: seq<u8>, first: bool, skipped: nat)

  /**
   * One run of `data_loop`: the adopted session (0 before the first datagram), the window, what has been printed,
   * whether nothing has been printed since the window was last empty, and the evictions since the last print.
   */
  datatype Receiver = Receiver(session: nat, window: View, output: seq<Printed>, begins: bool, skipped: nat)

  const STARTED := Receiver(0, EMPTY, [], true, 0)

  /** What the filter does with a datagram of session `sid` while `session` is adopted. */
  datatype Verdict = Adopt | Keep | Older | Newer

  function Filter(session: nat, sid: nat): Verdict {
    if session == 0 then Adopt
    else if session > sid then Older
    else if session < sid then Newer
    else Keep
  }

  /** The datagram gets past the filter. */
  predicate Adds(session: nat, order: HostOrder, d: seq<u8>)
    requires |d| > HEADER
  {
    Filter(session, SessionOf(order, d)) in {Adopt, Keep}
  }

  /** `add_to_buffor` under the lock, and the packages it pushes out at the front. */
  function Accept(r: Receiver, num: nat, data: seq<u8>, max: nat): Receiver
    requires data != []
  {
    r.(window := Add(r.window, num, data, max), skipped := r.skipped + Evicted(r.window, num, |data|))
  }

  /** The end of a run - the buffer is reset - and the start of the next. */
  function Restart(r: Receiver): Receiver {
    Receiver(0, Reset(r.window), [], true, 0)
  }

  /** One datagram through `data_loop`. */
  function Receive(r: Receiver, order: HostOrder, d: seq<u8>, max: nat): Receiver
    requires |d| > HEADER
  {
    var sid := SessionOf(order, d);
    match Filter(r.session, sid)
    case Older => r
    case Newer => Restart(r)
    case _ => Accept(r.(session := sid), NumOf(order, d), DataOf(d), max)
  }

  /** One turn of `printing_loop`: the front package is written out, or, being a hole, resets the buffer. */
  function Print(r: Receiver): Receiver
    requires r.window.pkgs != []
  {
    var c := r.window.pkgs[0];
    if c.data == [] then r.(window := Reset(r.window), begins := true, skipped := 0)
    else
      var w := Pop(r.window);
      r.(window := w, output := r.output + [Printed(c.num, c.data, r.begins, r.skipped)],
         begins := w.pkgs == [], skipped := 0)
  }

  class Reception {
    const order: HostOrder
    const buffer: Buffer
    var session: nat
    ghost var output: seq<Printed>
    ghost var begins: bool
    ghost var skipped: nat

    ghost function Abs(): Receiver
      reads this, buffer, buffer.packages
    {
      Receiver(session, buffer.Abs(), output, begins, skipped)
    }

    constructor (order: HostOrder, maxData: nat)
      requires maxData < TWO_63
      ensures Abs() == STARTED && buffer.maxData == maxData && fresh(buffer)
      ensures forall len: nat :: len > 0 ==> buffer.Valid(len)
      ensures this.order == order
    {
      this.order, session := order, 0;
      buffer := new Buffer(maxData);
      output, begins, skipped := [], true, 0;
    }

    /**
     * The body of `data_loop` for one received datagram; `stop` says that the loop is left. Only a datagram that is
     * added must have the window's package length; `skipped` grows by the front packages the loop has dropped.
     */
    method Datagram(d: seq<u8>) returns (stop: bool)
      requires |d| > HEADER && buffer.maxData < TWO_63
      requires Adds(session, order, d) ==> buffer.Valid(|d| - HEADER) && NumOf(order, d) + buffer.maxData < TWO_64
      modifies this, buffer, buffer.packages
      ensures Adds(old(session), order, d) ==> buffer.Valid(|d| - HEADER)
      ensures stop ==> forall len: nat :: len > 0 ==> buffer.Valid(len)
      ensures Abs() == Receive(old(Abs()), order, d, buffer.maxData)
      ensures stop <==> 0 < old(session) < SessionOf(order, d)
      ensures Adds(old(session), order, d) ==> skipped == old(skipped) + (buffer.evicted - old(buffer.evicted))
    {
      hide Add, WellFormed, Field, EmptyNums, Evicted;
      ghost var before := buffer.evicted;
      var sessionId, firstByteNum, data := SessionOf(order, d), NumOf(order, d), DataOf(d);
      stop := false;
      if session == 0 {
        session := sessionId;
      } else if session > sessionId {
        return;
      } else if session < sessionId {
        stop := true;
        EndRun();
        return;
      }
      buffer.AddToBuffer(firstByteNum, data);
      skipped := skipped + (buffer.evicted - before);
    }

    /** After the loop: the buffer is reset; the next run starts without a session. */
    method EndRun()
      requires buffer.maxData < TWO_63
      modifies this, buffer`packages, buffer`index
      ensures Abs() == Restart(old(Abs())) && forall len: nat :: len > 0 ==> buffer.Valid(len)
    {
      buffer.Reset();
      session, output, begins, skipped := 0, [], true, 0;
    }

    /** One turn of `printing_loop`; the bytes written, or none when the buffer was reset. */
    method PrintOne(len: nat) returns (bytes: seq<u8>)
      requires len > 0 && buffer.packages != [] && buffer.Valid(len)
      modifies this`output, this`begins, this`skipped, buffer`packages, buffer`index
      ensures buffer.Valid(len) && Abs() == Print(old(Abs()))
      ensures bytes == old(buffer.packages[0].data)
    {
      hide WellFormed, EmptyNums;
      ghost var r := Abs();
      var package := buffer.Pop(len);
      bytes := package.data;
      if bytes == [] {
        buffer.Reset();
        begins, skipped := true, 0;
      } else {
        output := output + [Printed(package.num, bytes, begins, skipped)];
        begins, skipped := buffer.packages == [], 0;
      }
    }
  }
}
