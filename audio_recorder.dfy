/**
 * `AudioRecorder`: the Idle -> Recording -> Finished life cycle of a voice
 * recording, guarded by `check` calls, and the name of the file it records
 * to. The platform `MediaRecorder` is reduced to whether it was started or
 * stopped; the clock is a parameter.
 */
module AudioRecording {
  import opened Results
  import opened Text

  // ------------------------------------------------------------------ file name

  /** A `java.io.File`: a directory and a name in it. */
  datatype File = File(dir: string, name: string)

  /** A wall-clock reading in the device's time zone. */
  datatype DateTime = DateTime(year: nat, month: nat, day: nat, hour: nat, minute: nat, second: nat)

  /** A number below 10^w has at most w digits. */
  lemma {:induction false} NatDigitsLength(n: nat, w: nat)
    requires 1 <= w && n < Pow10(w)
    ensures |NatDigits(n)| <= w
  {
    if n >= 10 {
      assert w >= 2;
      assert n / 10 < Pow10(w - 1);
      NatDigitsLength(n / 10, w - 1);
    }
  }

  lemma NatDigitsFit(n: nat, w: nat)
    ensures 1 <= w && n < Pow10(w) ==> |NatDigits(n)| <= w
  {
    if 1 <= w && n < Pow10(w) { NatDigitsLength(n, w); }
  }

  function Zeros(k: nat): (s: string)
    ensures |s| == k && AllDigits(s)
  {
    seq(k, _ => '0')
  }

  lemma {:induction false} ParseAfterZeros(k: nat, s: string)
    requires AllDigits(s)
    ensures AllDigits(Zeros(k) + s) && ParseDigits(Zeros(k) + s) == ParseDigits(s)
  {
    if k > 0 {
      ParseAfterZeros(k - 1, s);
      assert Zeros(k) + s == "0" + (Zeros(k - 1) + s);
      ParseLeadingZero(Zeros(k - 1) + s);
    } else {
      assert Zeros(k) + s == s;
    }
  }

  /** `SimpleDateFormat`'s zero padding: at least `width` digits, more if the number needs them. */
  function Pad(n: nat, width: nat): (s: string)
    ensures AllDigits(s) && ParseDigits(s) == n
    ensures 1 <= width && n < Pow10(width) ==> |s| == width
  {
    var d := NatDigits(n);
    ParseNatDigits(n);
    NatDigitsFit(n, width);
    if |d| >= width then d
    else
      ParseAfterZeros(width - |d|, d);
      Zeros(width - |d|) + d
  }

  /** The `yyyyMMdd_HHmmss` pattern of `SimpleDateFormat`. */
  function FormatStamp(t: DateTime): (stamp: string)
    ensures FitsStamp(t) ==> |stamp| == 15 && stamp[8] == '_'
  {
    assert Pow10(2) == 100 && Pow10(4) == 10000;
    Pad(t.year, 4) + Pad(t.month, 2) + Pad(t.day, 2) + "_" + Pad(t.hour, 2) + Pad(t.minute, 2) + Pad(t.second, 2)
  }

  /** Reads a `yyyyMMdd_HHmmss` stamp back. */
  function ParseStamp(s: string): Option<DateTime> {
    if |s| == 15 && s[8] == '_' && AllDigits(s[..4]) && AllDigits(s[4..6]) && AllDigits(s[6..8]) &&
       AllDigits(s[9..11]) && AllDigits(s[11..13]) && AllDigits(s[13..])
    then Some(DateTime(ParseDigits(s[..4]), ParseDigits(s[4..6]), ParseDigits(s[6..8]),
                       ParseDigits(s[9..11]), ParseDigits(s[11..13]), ParseDigits(s[13..])))
    else None
  }

  /** Fields that fit the pattern's widths. */
  predicate FitsStamp(t: DateTime) {
    t.year < 10000 && t.month < 100 && t.day < 100 && t.hour < 100 && t.minute < 100 && t.second < 100
  }

  /** The stamp has fifteen characters and gives the time back, so no two times share a name. */
  lemma StampRoundTrip(t: DateTime)
    requires FitsStamp(t)
    ensures |FormatStamp(t)| == 15 && ParseStamp(FormatStamp(t)) == Some(t)
  {
    assert Pow10(2) == 100 && Pow10(4) == 10000;
    var y, mo, d, h, mi, se := Pad(t.year, 4), Pad(t.month, 2), Pad(t.day, 2), Pad(t.hour, 2), Pad(t.minute, 2), Pad(t.second, 2);
    var s := FormatStamp(t);
    assert s == y + mo + d + "_" + h + mi + se;
    assert s[..4] == y;
    assert s[4..6] == mo;
    assert s[6..8] == d;
    assert s[8] == '_';
    assert s[9..11] == h;
    assert s[11..13] == mi;
    assert s[13..] == se;
  }

  /** Any stamp between "rec_" and ".opus" can be found again at the name's ends. */
  lemma Framed(stamp: string)
    ensures var name := "rec_" + stamp + ".opus";
      |name| == |stamp| + 9 && name[..4] == "rec_" && name[|name| - 5..] == ".opus"
  {
    var name := "rec_" + stamp + ".opus";
    assert name[..4] == "rec_";
    assert name[|name| - 5..] == ".opus";
  }

  /** `"rec_" + yyyyMMdd_HHmmss + ".opus"`. */
  function OutputName(now: DateTime): (name: string)
    ensures |name| == |FormatStamp(now)| + 9 && name[..4] == "rec_" && name[|name| - 5..] == ".opus"
  {
    var stamp := FormatStamp(now);
    Framed(stamp);
    "rec_" + stamp + ".opus"
  }

  /** The recording's name starts with "rec_", ends with ".opus" and carries the start time. */
  lemma OutputNameShape(now: DateTime)
    requires FitsStamp(now)
    ensures var n := OutputName(now);
      |n| == 24 && n[..4] == "rec_" && n[19..] == ".opus" && ParseStamp(n[4..19]) == Some(now)
  {
    StampRoundTrip(now);
    var n := OutputName(now);
    assert n[4..19] == FormatStamp(now);
  }

  // -------------------------------------------------------------- state machine

  /** `AudioRecorder.State`. */
  datatype State = Idle | Recording | Finished(file: File)

  /** The exceptions the recorder raises. */
  datatype RecorderError =
    | IllegalState(message: string)   // a failed `check`
    | NullOutputFile                  // `outputFile!!` on null
    | SetupFailed                     // the platform recorder could not be prepared or started

  const StartMessage: string := "start() called, but recorder is already in use."
  const StopMessage: string := "stop() called while not recording."

  /** The part of the recorder that decides which calls are legal. */
  datatype Machine = Machine(state: State, outputFile: Option<File>)

  /** Recording and Finished always have the output file they were started with. */
  predicate Consistent(m: Machine) {
    (m.state.Recording? ==> m.outputFile.Some?) &&
    (m.state.Finished? ==> m.outputFile == Some(m.state.file))
  }

  /**
   * A call on the recorder. `StartCall` carries the file `start` names and
   * whether the platform recorder could be prepared and started.
   */
  datatype Call = StartCall(file: File, setupOk: bool) | StopCall | CancelCall | ReleaseCall

  /** The machine a successful call leaves, or the exception the call throws. */
  function Step(m: Machine, c: Call): (r: Result<Machine, RecorderError>)
    ensures c.StartCall? ==> (r.Ok? <==> m.state == Idle && c.setupOk)
    ensures c.StartCall? && m.state == Idle && !c.setupOk ==> r == Err(SetupFailed)
    ensures r == Err(SetupFailed) ==> c.StartCall? && m.state == Idle
    ensures c.StopCall? ==> (r.Ok? <==> m.state == Recording && m.outputFile.Some?)
    ensures c.CancelCall? || c.ReleaseCall? ==> r.Ok?
    ensures r.Ok? ==> r.value.outputFile == if c.StartCall? then Some(c.file) else m.outputFile
    ensures r.Ok? && c.StopCall? ==> r.value.state == Finished(m.outputFile.value)
  {
    match c
    case StartCall(f, setupOk) =>
      if m.state != Idle then Err(IllegalState(StartMessage))
      else if setupOk then Ok(Machine(Recording, Some(f)))
      else Err(SetupFailed)
    case StopCall =>
      if m.state != Recording then Err(IllegalState(StopMessage))
      else if m.outputFile.None? then Err(NullOutputFile)
      else Ok(Machine(Finished(m.outputFile.value), m.outputFile))
    case CancelCall => Ok(Machine(Idle, m.outputFile))
    case ReleaseCall => Ok(m)
  }

  /**
   * The machine after a call, whether or not it threw. A `start` whose setup
   * fails has already named its file, so it leaves Idle with the new name;
   * every other exception is thrown before anything changes.
   */
  function Next(m: Machine, c: Call): (n: Machine)
    ensures Step(m, c).Ok? ==> n == Step(m, c).value
    ensures Step(m, c) == Err(SetupFailed) ==> n == Machine(Idle, Some(c.file))
    ensures Step(m, c).Err? && Step(m, c) != Err(SetupFailed) ==> n == m
    ensures c.StartCall? && m.state == Idle ==> n.outputFile == Some(c.file)
  {
    match Step(m, c)
    case Ok(next) => next
    case Err(e) => if e == SetupFailed then Machine(Idle, Some(c.file)) else m
  }

  /** Every call keeps the machine consistent, and a consistent machine never meets a null file. */
  lemma StepKeepsConsistent(m: Machine, c: Call)
    requires Consistent(m)
    ensures Step(m, c).Ok? ==> Consistent(Step(m, c).value)
    ensures Consistent(Next(m, c))
    ensures Step(m, c) != Err(NullOutputFile)
  {
  }

  /** A run of calls whose exceptions are caught: each call leaves the machine `Next` gives. */
  function Run(m: Machine, calls: seq<Call>): (r: Machine)
    ensures Consistent(m) ==> Consistent(r)
    decreases |calls|
  {
    if calls == [] then m
    else Run(Next(m, calls[0]), calls[1..])
  }

  predicate NoCancel(calls: seq<Call>) {
    forall k :: 0 <= k < |calls| ==> !calls[k].CancelCall?
  }

  /**
   * Once Finished, the recorder stays Finished with the same file, and every
   * `start` is rejected, until `cancel` is called.
   */
  lemma {:induction false} FinishedUntilCancel(m: Machine, calls: seq<Call>)
    requires m.state.Finished? && NoCancel(calls)
    ensures Run(m, calls) == m
    ensures forall k :: 0 <= k < |calls| && calls[k].StartCall? ==> Step(Run(m, calls[..k]), calls[k]).Err?
  {
    if calls != [] {
      assert Next(m, calls[0]) == m;
      assert NoCancel(calls[1..]) by {
        forall k | 0 <= k < |calls[1..]| ensures !calls[1..][k].CancelCall? { assert calls[1..][k] == calls[k + 1]; }
      }
      FinishedUntilCancel(m, calls[1..]);
      forall k | 0 <= k < |calls| && calls[k].StartCall? ensures Step(Run(m, calls[..k]), calls[k]).Err? {
        if k == 0 {
          assert calls[..0] == [];
        } else {
          assert calls[..k][1..] == calls[1..][..k - 1];
          assert calls[1..][k - 1] == calls[k];
          assert Run(m, calls[..k]) == Run(m, calls[1..][..k - 1]);
        }
      }
    }
  }

  /** `cancel` always succeeds and always returns to Idle. */
  lemma CancelResets(m: Machine)
    ensures Step(m, CancelCall) == Ok(Machine(Idle, m.outputFile))
  {
  }

  /** After `start` and `stop`, the recorder is Finished with the file `start` returned. */
  lemma StartThenStop(m: Machine, f: File)
    requires m.state == Idle
    ensures Run(m, [StartCall(f, true), StopCall]).state == Finished(f)
  {
    var calls := [StartCall(f, true), StopCall];
    var m1 := Machine(Recording, Some(f));
    assert calls[1..] == [StopCall];
    assert Run(m, calls) == Run(m1, [StopCall]);
    assert [StopCall][1..] == [];
    assert Run(m1, [StopCall]) == Machine(Finished(f), Some(f));
  }

  /**
   * A `start` whose setup fails keeps the new name but stays Idle, so a
   * following `stop` is rejected and the machine is left Idle with that name.
   */
  lemma FailedStartThenStop(m: Machine, f: File)
    requires m.state == Idle
    ensures Step(Next(m, StartCall(f, false)), StopCall) == Err(IllegalState(StopMessage))
    ensures Run(m, [StartCall(f, false), StopCall]) == Machine(Idle, Some(f))
  {
    var calls := [StartCall(f, false), StopCall];
    var m1 := Machine(Idle, Some(f));
    assert Next(m, calls[0]) == m1;
    assert calls[1..] == [StopCall];
    assert Run(m, calls) == Run(m1, [StopCall]);
    assert [StopCall][1..] == [];
  }

  // ------------------------------------------------------------------ the class

  /** The platform `MediaRecorder` the recorder holds: started, or stopped. */
  datatype MediaRecorderPhase = Started | Stopped

  class AudioRecorder {
    /** `context.cacheDir`. */
    const cacheDir: string
    var state: State
    var recorder: Option<MediaRecorderPhase>
    var outputFile: Option<File>
    /** The files that exist on the device among those this recorder writes or deletes. */
    var files: set<File>

    predicate Valid()
      reads this
    {
      Consistent(Machine(state, outputFile))
    }

    function MachineOf(): Machine
      reads this
    {
      Machine(state, outputFile)
    }

    constructor (cacheDir: string, files: set<File>)
      ensures Valid() && this.cacheDir == cacheDir && this.files == files
      ensures state == Idle && recorder.None? && outputFile.None?
    {
      this.cacheDir := cacheDir;
      this.files := files;
      state := Idle;
      recorder := None;
      outputFile := None;
    }

    /**
     * `start`: only from Idle. Names the output file after the current time,
     * starts a platform recorder writing it, enters Recording and returns the
     * file. If the platform recorder cannot be set up, the new name is kept
     * but the state stays Idle.
     */
    method Start(now: DateTime, setupSucceeds: bool) returns (r: Result<File, RecorderError>)
      requires Valid()
      modifies this
      ensures Valid()
      ensures var f := File(cacheDir, OutputName(now));
        var step := Step(old(MachineOf()), StartCall(f, setupSucceeds));
        MachineOf() == Next(old(MachineOf()), StartCall(f, setupSucceeds)) &&
        (if step.Ok? then r == Ok(f) else r == Err(step.error)) &&
        if old(state) != Idle then
          r == Err(IllegalState(StartMessage)) &&
          state == old(state) && outputFile == old(outputFile) && recorder == old(recorder) && files == old(files)
        else if setupSucceeds then
          r == Ok(f) && state == Recording && outputFile == Some(f) && recorder == Some(Started) && files == old(files) + {f}
        else
          r == Err(SetupFailed) &&
          state == Idle && outputFile == Some(f) && recorder == old(recorder) && files == old(files)
    {
      if state != Idle {
        return Err(IllegalState(StartMessage));
      }
      var f := File(cacheDir, OutputName(now));
      outputFile := Some(f);
      if !setupSucceeds {
        return Err(SetupFailed);
      }
      recorder := Some(Started);
      files := files + {f};
      state := Recording;
      return Ok(f);
    }

    /** `stop`: only while Recording. Stops the platform recorder and finishes with the started file. */
    method Stop() returns (r: Result<File, RecorderError>)
      requires Valid()
      modifies this
      ensures Valid()
      ensures outputFile == old(outputFile) && files == old(files)
      ensures MachineOf() == Next(old(MachineOf()), StopCall)
      ensures old(state) != Recording ==>
        r == Err(IllegalState(StopMessage)) && state == old(state) && recorder == old(recorder)
      ensures old(state) == Recording ==>
        r == Ok(old(outputFile).value) && state == Finished(old(outputFile).value) &&
        Step(old(MachineOf()), StopCall) == Ok(MachineOf()) &&
        recorder == (if old(recorder).Some? then Some(Stopped) else None)
    {
      if state != Recording {
        return Err(IllegalState(StopMessage));
      }
      if recorder.Some? {
        recorder := Some(Stopped);
      }
      state := Finished(outputFile.value);
      return Ok(outputFile.value);
    }

    /**
     * `cancel`: from any state. Stops the platform recorder if it runs
     * (swallowing its complaint if it does not), deletes the output file and
     * returns to Idle.
     */
    method Cancel()
      requires Valid()
      modifies this
      ensures Valid()
      ensures state == Idle && outputFile == old(outputFile)
      ensures Step(old(MachineOf()), CancelCall) == Ok(MachineOf()) && MachineOf() == Next(old(MachineOf()), CancelCall)
      ensures recorder == (if old(recorder).Some? then Some(Stopped) else None)
      ensures files == if old(outputFile).Some? then old(files) - {old(outputFile).value} else old(files)
    {
      if recorder.Some? {
        recorder := Some(Stopped);
      }
      if outputFile.Some? {
        files := files - {outputFile.value};
      }
      state := Idle;
    }

    /** `release`: frees the platform recorder; the state is left as it is. */
    method Release()
      requires Valid()
      modifies this
      ensures Valid()
      ensures recorder.None? && state == old(state) && outputFile == old(outputFile) && files == old(files)
      ensures MachineOf() == Next(old(MachineOf()), ReleaseCall)
    {
      recorder := None;
    }
  }
}
