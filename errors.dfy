/** Error kinds, their table of severities and messages, and the error store that the
    user interface polls. The clock is a parameter: `now` is the current time in
    milliseconds. */
module Errors {
  import opened Wrappers

  /** Warnings are shown for this many milliseconds after they are raised. */
  const WarningShowMillis: int := 2000

  /** Severities in declaration order; a smaller rank is more severe. */
  datatype Severity = Debug | Unrecoverable | Recoverable | Warning

  function Rank(s: Severity): int {
    match s
    case Debug => 0
    case Unrecoverable => 1
    case Recoverable => 2
    case Warning => 3
  }

  datatype ErrorKind =
    | BoardStateCorrupt
    | UnparseableMove
    | EngineNotFound
    | EngineVersionMismatch
    | EngineParseError
    | EngineConfigFileNotFound
    | EngineModelFileNotFound
    | EngineBusy
    | EngineNotUsable
    | GameInKo

  datatype GoError = GoError(severity: Severity, message: string)

  /** The severity column of the table of errors. */
  function SeverityOf(e: ErrorKind): (s: Severity)
    ensures s == Recoverable <==> e == BoardStateCorrupt
    ensures s == Debug <==> e == UnparseableMove || e == EngineParseError
    ensures s != Unrecoverable
  {
    match e
    case BoardStateCorrupt => Recoverable
    case UnparseableMove => Debug
    case EngineParseError => Debug
    case _ => Warning
  }

  /** The message column of the table of errors. */
  function MessageOf(e: ErrorKind): string {
    match e
    case BoardStateCorrupt => "Board state error due to invalid action added to the board actions"
    case UnparseableMove => "Move parsed cannot be handled, handle this situation manually"
    case EngineNotFound => "Engine not connected, please update path in config.json and restart"
    case EngineVersionMismatch => "Engine version mismatch, issues may occur. Use version: "
    case EngineParseError => "Response from katago cannot be parsed properly."
    case EngineConfigFileNotFound => "Engine config file not found, Engine failed to load"
    case EngineModelFileNotFound => "Engine model file not found, Engine failed to load"
    case EngineBusy => "Engine is busy"
    case EngineNotUsable => "Engine parse error, disabling it for now."
    case GameInKo => "The game is in KO, play elsewhere first."
  }

  /** The table of errors: one entry per kind. */
  function ErrorInfo(e: ErrorKind): GoError {
    GoError(SeverityOf(e), MessageOf(e))
  }

  datatype ErrorPacket = ErrorPacket(at: int, error: GoError)

  /** A packet is still shown at time `now`: it is not a warning, or it is a warning
      raised at most WarningShowMillis ago. */
  predicate Survives(p: ErrorPacket, now: int) {
    p.error.severity != Warning || now <= p.at + WarningShowMillis
  }

  /** The packets that survive at time `now`, in stored order. */
  function Surviving(ps: seq<ErrorPacket>, now: int): (r: seq<ErrorPacket>)
    ensures |r| <= |ps|
    ensures forall k :: 0 <= k < |r| ==> r[k] in ps && Survives(r[k], now)
  {
    if ps == [] then []
    else if Survives(ps[|ps| - 1], now) then Surviving(ps[..|ps| - 1], now) + [ps[|ps| - 1]]
    else Surviving(ps[..|ps| - 1], now)
  }

  function ErrorsOf(ps: seq<ErrorPacket>): (r: seq<GoError>)
    ensures |r| == |ps| && forall k :: 0 <= k < |ps| ==> r[k] == ps[k].error
  {
    seq(|ps|, k requires 0 <= k < |ps| => ps[k].error)
  }

  lemma {:induction false} SurvivingAppend(xs: seq<ErrorPacket>, ys: seq<ErrorPacket>, now: int)
    ensures Surviving(xs + ys, now) == Surviving(xs, now) + Surviving(ys, now)
    decreases |ys|
  {
    if ys == [] {
      assert xs + ys == xs;
    } else {
      var last := ys[|ys| - 1];
      assert (xs + ys)[..|xs + ys| - 1] == xs + ys[..|ys| - 1];
      SurvivingAppend(xs, ys[..|ys| - 1], now);
    }
  }

  /** Every packet that is not a warning survives, whatever the time. */
  lemma {:induction false} NonWarningsSurvive(ps: seq<ErrorPacket>, now: int, k: int)
    requires 0 <= k < |ps| && ps[k].error.severity != Warning
    ensures ps[k] in Surviving(ps, now)
    decreases |ps|
  {
    if k < |ps| - 1 {
      NonWarningsSurvive(ps[..|ps| - 1], now, k);
    }
  }

  /** A packet survives exactly when it satisfies Survives (the filter keeps the good ones
      and drops the rest). */
  lemma {:induction false} SurvivingKeeps(ps: seq<ErrorPacket>, now: int, p: ErrorPacket)
    ensures p in Surviving(ps, now) <==> p in ps && Survives(p, now)
    decreases |ps|
  {
    if ps != [] {
      SurvivingKeeps(ps[..|ps| - 1], now, p);
      assert ps == ps[..|ps| - 1] + [ps[|ps| - 1]];
    }
  }

  /** Filtering twice at the same time removes nothing more. */
  lemma {:induction false} SurvivingIdempotent(ps: seq<ErrorPacket>, now: int)
    ensures Surviving(Surviving(ps, now), now) == Surviving(ps, now)
    decreases |ps|
  {
    if ps != [] {
      var init := ps[..|ps| - 1];
      var last := ps[|ps| - 1];
      SurvivingIdempotent(init, now);
      if Survives(last, now) {
        SurvivingAppend(Surviving(init, now), [last], now);
        assert Surviving([last], now) == [last] by {
          assert [last][..0] == [];
        }
      }
    }
  }

  /** The most severe severity in the list, or none for an empty list. */
  method GetErrorSeverity(errors: seq<GoError>) returns (severity: Option<Severity>)
    ensures severity.None? <==> errors == []
    ensures severity.Some? ==> exists k :: 0 <= k < |errors| && errors[k].severity == severity.value
    ensures severity.Some? ==> forall k :: 0 <= k < |errors| ==> Rank(severity.value) <= Rank(errors[k].severity)
  {
    severity := None;
    var i := 0;
    while i < |errors|
      invariant 0 <= i <= |errors|
      invariant severity.None? <==> i == 0
      invariant severity.Some? ==> exists k :: 0 <= k < i && errors[k].severity == severity.value
      invariant severity.Some? ==> forall k :: 0 <= k < i ==> Rank(severity.value) <= Rank(errors[k].severity)
    {
      var error := errors[i];
      if severity.None? {
        severity := Some(error.severity);
      }
      if Rank(error.severity) < Rank(severity.value) {
        severity := Some(error.severity);
      }
      i := i + 1;
    }
  }

  /** The process-wide error store of the game as an object. */
  class ErrorHandler {
    var packets: seq<ErrorPacket>

    constructor ()
      ensures packets == []
    {
      packets := [];
    }

    /** `init`: forget every stored packet. */
    method Init()
      modifies this
      ensures packets == []
    {
      packets := [];
    }

    /** `throwError`: store one packet, stamped `now`, carrying the table entry of `e`. */
    method ThrowError(e: ErrorKind, now: int)
      modifies this
      ensures packets == old(packets) + [ErrorPacket(now, ErrorInfo(e))]
    {
      packets := packets + [ErrorPacket(now, ErrorInfo(e))];
    }

    /** `getErrors`: drop the expired warnings from the store and return the errors of the
        packets kept, in stored order. */
    method GetErrors(now: int) returns (errors: seq<GoError>)
      modifies this
      ensures packets == Surviving(old(packets), now)
      ensures errors == ErrorsOf(packets)
    {
      if |packets| == 0 {
        return [];
      }
      errors := [];
      ghost var orig := packets;
      ghost var c := 0;
      var i := 0;
      while i < |packets|
        invariant 0 <= i <= |packets| && 0 <= c <= |orig|
        invariant packets[..i] == Surviving(orig[..c], now)
        invariant packets[i..] == orig[c..]
        invariant errors == ErrorsOf(packets[..i])
        decreases |packets| - i
      {
        var packet := packets[i];
        assert packet == orig[c];
        assert orig[..c + 1][..c] == orig[..c];
        if packet.error.severity == Warning && now > packet.at + WarningShowMillis {
          ghost var prev := packets;
          packets := packets[..i] + packets[i + 1..];
          assert packets[..i] == prev[..i];
          assert packets[i..] == prev[i + 1..];
          c := c + 1;
          continue;
        }
        errors := errors + [packet.error];
        i := i + 1;
        c := c + 1;
        assert packets[..i] == packets[..i - 1] + [packet];
      }
      assert orig[..c] == orig;
      assert packets[..i] == packets;
    }
  }
}
