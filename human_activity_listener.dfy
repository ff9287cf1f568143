/**
 * HumanActivityListener.kt: every finished editor command that is not noise
 * and not issued from the agent's own code asks the coordinator for a human
 * checkpoint.
 */
module HumanActivityListener {
  import opened Wrappers
  import opened Text
  import opened Coordinator
  import AwsQDetector

  /** The commands `commandFinished` drops before looking at the stack. */
  predicate IsNoiseCommand(name: string)
    ensures IsNoiseCommand(name) <==>
      name == [] || name == "Reload From Disk" || exists i :: OccursAtIgnoreCase(name, "git-ai", i)
  {
    name == [] || name == "Reload From Disk" || ContainsIgnoreCase(name, "git-ai")
  }

  /**
   * Whether `commandFinished` asks for a human checkpoint: a missing command
   * name counts as empty, and the agent's frames veto the request.
   */
  predicate RequestsCheckpoint(commandName: Option<string>, frames: seq<string>)
    ensures RequestsCheckpoint(commandName, frames) <==>
      && commandName.Some?
      && !IsNoiseCommand(commandName.value)
      && forall i :: 0 <= i < |frames| && i < AwsQDetector.FRAMES_TO_CHECK ==> !AwsQDetector.IsAwsQFrame(frames[i])
  {
    var name := commandName.GetOr("");
    !IsNoiseCommand(name) && !AwsQDetector.IsAwsQStackTrace(frames)
  }

  /** `commandFinished`, with the current thread's stack passed in. */
  method CommandFinished(manager: CheckpointManager, commandName: Option<string>, frames: seq<string>, now: int)
    requires manager.Valid() && manager.clock <= now
    modifies manager
    ensures manager.Valid()
    ensures manager.State() ==
      if RequestsCheckpoint(commandName, frames) then HumanRequestStep(old(manager.State()), now)
      else old(manager.State())
  {
    var name := commandName.GetOr("");
    if IsNoiseCommand(name) {
      return;
    }
    if AwsQDetector.IsAwsQStackTrace(frames) {
      return;
    }
    TriggerCheckpointHuman(manager, now);
  }

  /** `triggerCheckpointHuman`: delegate to the coordinator. */
  method TriggerCheckpointHuman(manager: CheckpointManager, now: int)
    requires manager.Valid() && manager.clock <= now
    modifies manager
    ensures manager.Valid()
    ensures manager.State() == HumanRequestStep(old(manager.State()), now)
  {
    manager.RequestHumanCheckpoint(now);
  }

  /** The noise filter: a missing or empty name, the exact reload command, the tool's own commands in any case. */
  lemma NoiseIsDropped(frames: seq<string>)
    ensures !RequestsCheckpoint(None, frames)
    ensures !RequestsCheckpoint(Some(""), frames)
    ensures !RequestsCheckpoint(Some("Reload From Disk"), frames)
    ensures !RequestsCheckpoint(Some("Run GIT-AI Checkpoint"), frames)
  {
    assert OccursAtIgnoreCase("Run GIT-AI Checkpoint", "git-ai", 4);
  }

  /** The reload test is exact: another spelling is an ordinary command. */
  lemma ReloadMatchIsExact()
    ensures RequestsCheckpoint(Some("reload from disk"), [])
  {
    NoFoldedFirstChar("reload from disk", "git-ai");
  }

  /** A command run from the agent's code is not a human action. */
  lemma AgentStackIsDropped(inner: seq<string>)
    requires |inner| < AwsQDetector.FRAMES_TO_CHECK
    ensures !RequestsCheckpoint(Some("Paste"), inner + ["software.aws.toolkits.core.Tool.run"])
  {
    var f := "software.aws.toolkits.core.Tool.run";
    assert OccursAt(f, "software.aws.toolkits", 0) by { assert f[..21] == "software.aws.toolkits"; }
    ContainsImpliesContainsIgnoreCase(f, "software.aws.toolkits");
    var frames := inner + [f];
    assert frames[|inner|] == f;
    assert AwsQDetector.IsAwsQFrame(frames[|inner|]);
  }

  /** An agent frame below the first thirty does not veto the request. */
  lemma DeepAgentFrameIsMissed(inner: seq<string>)
    requires |inner| == AwsQDetector.FRAMES_TO_CHECK
    requires forall i :: 0 <= i < |inner| ==> !AwsQDetector.IsAwsQFrame(inner[i])
    ensures RequestsCheckpoint(Some("Paste"), inner + ["software.aws.toolkits.core.Tool.run"])
  {
    NoFoldedFirstChar("Paste", "git-ai");
    var frames := inner + ["software.aws.toolkits.core.Tool.run"];
    assert forall i :: 0 <= i < |frames| && i < AwsQDetector.FRAMES_TO_CHECK ==> frames[i] == inner[i];
  }
}
