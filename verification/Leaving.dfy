/** A script that compiles and whose chunk is not sound: a run can leave it. */
module Leaving {
  import opened Branches
  import opened Frames
  import opened FunctionFree
  import opened Functions
  import opened Instructions
  import opened SoundCode
  import Placing

  /** `var a = 1; var b = 1; if (a) { while (a) a = 1; }` */
  const SCRIPT_ZERO: seq<Item> := EmbedDecls(Script(0))

  const FUNCTION_ZERO: Function := ScriptFunction(OPEN_EXIT, POOL)

  lemma Compiles()
    ensures MakeScript(SCRIPT_ZERO) == Accepted(FUNCTION_ZERO) && Compact(FUNCTION_ZERO)
  {
    hide MakeScript, Placing.PlaceScript, Script;
    ExitLeftOpen();
    ScriptLift(Script(0));
  }

  /** Where the exit jump leads, in a chunk of 35 bytes. */
  const AWAY := 65554

  lemma ExitLeads()
    ensures Whole(OPEN_EXIT, FUNCTION_ZERO.pool, EXIT_AT) && |OPEN_EXIT| == 35
    ensures Follows(FUNCTION_ZERO, EXIT_AT, AWAY)
  {
  }

  /** The offsets of the instructions before the exit jump. */
  const PATH: seq<nat> := [0, 2, 4, 6, 8, 10, 13, 14, 16, 65554]

  lemma OnPath(k: nat)
    requires k + 1 < |PATH|
    ensures Whole(OPEN_EXIT, FUNCTION_ZERO.pool, PATH[k]) && Follows(FUNCTION_ZERO, PATH[k], PATH[k + 1])
    ensures k + 2 < |PATH| ==> PATH[k + 1] == PATH[k] + InstrLen(OPEN_EXIT, FUNCTION_ZERO.pool, PATH[k])
  {
  }

  lemma {:induction false} PathReads(k: nat)
    requires k + 1 < |PATH|
    ensures Instructions.Reads(OPEN_EXIT, FUNCTION_ZERO.pool, PATH[k], EXIT_AT)
    decreases |PATH| - k
  {
    hide InstrLen;
    if k + 2 < |PATH| {
      OnPath(k);
      PathReads(k + 1);
    }
  }

  /** The chunk is not sound. */
  lemma NotSound()
    ensures MakeScript(SCRIPT_ZERO) == Accepted(FUNCTION_ZERO) && !FunctionOk(FUNCTION_ZERO)
  {
    hide MakeScript, FunctionOk;
    Compiles();
    PathReads(0);
    ExitLeads();
    if FunctionOk(FUNCTION_ZERO) { StaysInside(FUNCTION_ZERO, EXIT_AT, AWAY); }
  }

  function At(k: nat): seq<Frame>
    requires k < |PATH|
  {
    [Frame(FUNCTION_ZERO, PATH[k])]
  }

  /** And a run leaves it, when the condition is false. */
  lemma RunLeaves() returns (run: seq<seq<Frame>>)
    ensures MakeScript(SCRIPT_ZERO) == Accepted(FUNCTION_ZERO) && IsRun(FUNCTION_ZERO, run)
    ensures !FramesOk(FUNCTION_ZERO, run[|run| - 1])
  {
    hide MakeScript, Follows, InstrLen;
    Compiles();
    run := seq(|PATH|, k requires 0 <= k < |PATH| => At(k));
    forall k | 0 <= k < |run| - 1
      ensures Moves(FUNCTION_ZERO, run[k], run[k + 1])
    {
      OnPath(k);
      assert run[k + 1] == run[k][..0] + [Frame(FUNCTION_ZERO, PATH[k + 1])];
    }
    assert !FrameOk(FUNCTION_ZERO, run[|run| - 1][0]);
  }
}
