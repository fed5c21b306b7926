/** The part of the process table that message passing reads and writes. A process is
    named by its slot (slot 0 is process number -NR_TASKS), which also serves as its
    endpoint and as the id of its privilege structure. */
module IpcTypes {

  const NR_TASKS: nat := 5
  /** The pseudo process that reports finished asynchronous sends, number -5. */
  const ASYNCM: nat := 0

  datatype Option<+T> = None | Some(value: T)

  datatype Call = SEND | RECEIVE | SENDREC | NOTIFY | SENDNB

  /** Argument of a call: ANY or an endpoint, which may not exist. */
  datatype Target = ANY | Ep(e: int)

  datatype Code =
    | OK | EDEADSRCDST | EINVAL | ECALLDENIED | ETRAPDENIED | ENOTREADY | ELOCKED | EFAULT
    | EPERM | EAGAIN | ESRCH | EDOM
    | Hung      // not an error number: the kernel loops for ever

  /** What a message says, apart from its source. */
  datatype Body = Notification | Content(words: seq<int>)

  datatype Message = Message(source: nat, body: Body)

  /** Runtime flags other than the four that message passing looks at. */
  datatype Stop =
    | PROC_STOP | SIGNALED | SIG_PENDING | P_STOP | NO_PRIV | VMINHIBIT | PAGEFAULT
    | VMREQUEST | VMREQTARGET | PREEMPTED | NO_QUANTUM | BOOTINHIBIT

  /** An entry of a table of asynchronous sends; `badBits` stands for flag bits that the
      kernel does not know. */
  datatype Entry = Entry(
    valid: bool, done: bool, notify: bool, noReply: bool, notifyErr: bool, badBits: bool,
    dst: int, body: Body, result: Code)
  {
    predicate Empty() { !valid && !done && !notify && !noReply && !notifyErr && !badBits }
    predicate Bad() { !Empty() && (badBits || !valid) }
    /** A message that the kernel still has to handle. */
    predicate Unfinished() { valid && !badBits && !done }
    predicate Settled() { Empty() || (!Bad() && done) }
    function Store(r: Code): Entry { this.(done := true, result := r) }
    predicate WantsNotice(r: Code) { notify || (r != OK && notifyErr) }
  }

  /** The fields of struct proc. */
  datatype Proc = Proc(
    slotFree: bool, noEndpoint: bool, sending: bool, receiving: bool, stops: set<Stop>,
    replyPend: bool, deliverMsg: bool,            // MF_REPLY_PEND, MF_DELIVERMSG
    getFrom: Target, sendTo: nat,                 // p_getfrom_e, p_sendto_e
    sendMsg: Body, delivered: Message,            // p_sendmsg, p_delivermsg
    retreg: Code)
  {
    predicate Runnable() {
      !slotFree && !noEndpoint && !sending && !receiving && stops == {}
    }

    predicate Fits(n: nat) {
      && (sending ==> sendTo < n)
      && (receiving && getFrom.Ep? ==> 0 <= getFrom.e < n)
    }
  }

  /** The fields of struct priv; the bit maps are sets of ids. */
  datatype Priv = Priv(
    notifyPending: set<nat>, asynPending: set<nat>,
    ipcTo: set<nat>, traps: set<Call>, sysProc: bool,
    table: seq<Entry>, registered: bool,          // s_asyntab, s_asynsize > 0
    submitted: seq<Entry>, gen: nat)              // history: the table as handed in, and its number
  {
    ghost predicate Fits(n: nat) {
      && (forall x :: x in asynPending ==> x < n)
      && (forall x :: x in notifyPending ==> x < n)
    }
  }

  /** What has happened to messages so far, oldest first. */
  datatype Event =
    | Accepted(src: nat, dst: nat, body: Body)     // a send returned OK
    | Placed(src: nat, dst: nat, body: Body)       // put in the buffer of its destination
    | Cancelled(src: nat, dst: nat, body: Body)    // taken off a caller queue undelivered
    | Notified(src: nat, dst: nat)
    | AsyncPlaced(src: nat, dst: nat, gen: nat, idx: nat, body: Body)
    | Copied(dst: nat, msg: Message)               // copied out of the buffer
  {
    /** Does it put a message in the buffer of its destination? */
    predicate Arrives() { Placed? || Notified? || AsyncPlaced? }

    function Mail(): Message
      requires Arrives()
    {
      Message(src, if Notified? then Notification else body)
    }
  }

  /** What the history leaves in the buffer of `d`. */
  function Box(log: seq<Event>, d: nat): Option<Message> {
    if log == [] then None
    else
      var e := log[|log| - 1];
      if e.Arrives() && e.dst == d then Some(e.Mail())
      else if e.Copied? && e.dst == d then None
      else Box(log[..|log| - 1], d)
  }

  /** Where a message goes, and what it says. */
  datatype Letter = Letter(dst: int, body: Body)

  /** `queues[d]` lists the processes on the caller queue of `d`, first come first. */
  datatype State = State(procs: seq<Proc>, privs: seq<Priv>, queues: seq<seq<nat>>, log: seq<Event>)
  {
    function Size(): nat { |procs| }

    predicate Sized() { |procs| == |privs| == |queues| >= NR_TASKS }

    /** All slot numbers in the tables are slot numbers of these tables. */
    ghost predicate Shape() {
      && Sized()
      && (forall p :: 0 <= p < |procs| ==> procs[p].Fits(|procs|))
      && (forall p :: 0 <= p < |procs| ==> privs[p].Fits(|procs|))
      && (forall d, x :: 0 <= d < |queues| && x in queues[d] ==> x < |procs|)
    }

    function With(i: nat, p: Proc): State requires i < |procs| {
      this.(procs := procs[i := p])
    }

    function WithPriv(i: nat, v: Priv): State requires i < |privs| {
      this.(privs := privs[i := v])
    }

    function Note(es: seq<Event>): State { this.(log := log + es) }
  }
}
