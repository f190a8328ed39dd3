/** What the split pre-pass buys the dispatcher: no branch or jump to a fixed address of the
    image can miss. */
module Converged {
  import opened Words
  import opened ControlFlow
  import opened Emit
  import opened Runtime
  import opened Split
  import opened Generate

  /** In a program generated from converged functions, every branch arm and jump to a fixed
      address of the image goes to a label of the same body or to the entry of an emitted
      function. */
  lemma DirectTargetsDispatch(b: Build, fs: Functions, cfgs: map<Word, Cfg>, i: nat, a: int, t: Word)
    requires b.Valid() && i < |b.functions| && (forall s :: s in fs ==> fs[s] in b.functions)
    requires Consistent(fs) && CfgsMatch(b.img, fs, cfgs) && b.functions[i].start in cfgs
    requires b.functions[i] == fs[b.functions[i].start] && Resolved(b.img, cfgs[b.functions[i].start], fs.Keys)
    requires IsLeader(b.img, b.functions[i], a) && t in ExitTargets(BlockAt(b.img, b.functions[i], a).exit)
    requires InImage(b.img, t) && t != 0
    ensures ArmTo(UnitContext(b, i), t) == GotoArm(t)
            || (ArmTo(UnitContext(b, i), t) == PublishArm(t) && Func(t) in ProgramOf(b).text)
  {
    hide IsLeader, BlockAt, Resolved, CfgOf, TextUpTo, OwnerUpTo, ExitTargets;
    var s := b.functions[i].start;
    ConvergedTargets(b.img, fs, cfgs, s, a, t);
    if !IsLeader(b.img, b.functions[i], t) {
      var j :| 0 <= j < |b.functions| && b.functions[j] == fs[t];
      EveryStartIsCallable(b, j);
    }
  }
}
