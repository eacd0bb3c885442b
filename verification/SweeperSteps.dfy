/**
 * The sweeper's transaction as steps of the closing protocol, so that what is
 * proved of every interleaving holds of the rows it routes.
 */
module SweeperSteps {
  import opened ClosingProtocol
  import opened LiveRun
  import Sweeper

  /**
   * Whatever else is happening to a selected run, routing it is one step: a run
   * with no byte is ended, one with bytes is claimed by a sweeping party, whose
   * next call assembles it, and one at `parsing` gets a job.
   */
  lemma RoutingIsAStep(
      before: Sweeper.Runs, runs: Sweeper.Runs, selected: seq<Sweeper.RunId>, r: Sweeper.RunId, s: State, p: nat)
    returns (t: State)
    requires Sweeper.AllRouted(before, runs, selected) && r in selected && r in before
    requires s.live == before[r] && p !in s.parties
    ensures t.live == runs[r]
    ensures s.live.row.status.Running? && s.live.row.cursor == 0 ==> SweepEmpty(s, t)
    ensures s.live.row.status.Running? && s.live.row.cursor > 0 ==>
              Claim(s, t, p) && t.parties == s.parties[p := Party(Sweeping, FinalizeChunks)]
    ensures s.live.row.status.Parsing? ==> SweepParsing(s, t)
    ensures Terminal(s.live.row.status) ==> t == s
    ensures Inv(s) ==> Inv(t)
  {
    if Terminal(s.live.row.status) {
      t := s;
    } else if s.live.row.status.Parsing? {
      t := Queued(s);
      assert SweepStep(s, t);
    } else if s.live.row.cursor == 0 {
      t := s.(live := runs[r]);
      assert SweepStep(s, t);
    } else {
      t := s.(live := runs[r], parties := s.parties[p := Party(Sweeping, FinalizeChunks)]);
      assert Claim(s, t, p) by {
        assert s.live.(row := ClaimForClose(s.live.row, MarksAbandoned(Sweeping)).0) == runs[r];
      }
      assert PartyStep(s, t, p);
    }
    if Inv(s) && t != s { StepKeepsInv(s, t); }
  }
}
