/** From agreement to replication: the views that Paxos commits are the views that the
    replicated state machine runs on. */
module ViewHistory {
  import opened Views
  import opened AcceptorModel
  import opened PaxosSystem
  import opened PaxosSafety
  import opened PaxosTheorems
  import Rsm
  import RsmSystem

  /** The views an acceptor has committed, by instance; there is none for instance 0. */
  function History(a: Acceptor): (views: seq<seq<Node>>)
    ensures |views| == a.instanceH + 1
  {
    seq(a.instanceH + 1, j requires 0 <= j => if j in a.values then Members(a.values[j]) else [])
  }

  /** One committed view is one change away from the one before. */
  lemma HistoryStep(s: Sys, b: Node, j: nat)
    requires Inv(s) && TextStream.IsToken(s.first) && b in s.acc && 2 <= j <= s.acc[b].instanceH
    ensures var h := History(s.acc[b]); RsmSystem.OneChange(h[j - 1], h[j])
  {
    assert AcceptorOk(s, s.acc[b]);
    var n := StartOf(s, b, j);
    var q := s.ballots[n];
    MembersProper(s.acc[b].values[j - 1]);
    ChangedProper(q.nodes, q.change);
    MembersOfValue(Changed(q.nodes, q.change));
    assert RsmSystem.StepTo(q.nodes, Changed(q.nodes, q.change), q.change);
  }

  /** Every history of a reachable state is a list of views as replication needs it:
      the first holds the first node alone, and each later one adds a node that was no
      member or removes one, and is not empty. */
  lemma HistoryIsGood(s: Sys, b: Node)
    requires Reachable(s) && TextStream.IsToken(s.first) && b in s.acc && s.acc[b].instanceH >= 1
    ensures RsmSystem.GoodViews(s.first, History(s.acc[b]))
  {
    ReachableInv(s);
    var h := History(s.acc[b]);
    FirstCommitted(s, b);
    forall j | 2 <= j < |h|
      ensures RsmSystem.OneChange(h[j - 1], h[j])
    {
      HistoryStep(s, b, j);
    }
  }

  lemma FirstCommitted(s: Sys, b: Node)
    requires Inv(s) && TextStream.IsToken(s.first) && b in s.acc && s.acc[b].instanceH >= 1
    ensures var h := History(s.acc[b]); h[0] == [] && h[1] == [s.first]
  {
    assert AcceptorOk(s, s.acc[b]) && CommittedAt(s, s.acc[b], 1);
    TextStream.ReadTokenOf(s.first, "");
    assert s.first + "" == s.first && Members("") == [];
  }

  /** All nodes have the same views as far as they have them. */
  lemma HistoriesAgree(s: Sys, b: Node, c: Node, j: nat)
    requires Reachable(s) && b in s.acc && c in s.acc && j <= s.acc[b].instanceH && j <= s.acc[c].instanceH
    ensures History(s.acc[b])[j] == History(s.acc[c])[j]
  {
    PaxosAgreement(s);
    CommittedUpTo(s, b, j);
    CommittedUpTo(s, c, j);
  }

  lemma CommittedUpTo(s: Sys, b: Node, j: nat)
    requires Reachable(s) && b in s.acc && j <= s.acc[b].instanceH
    ensures j in s.acc[b].values <==> j >= 1
  {
    ReachableInv(s);
    assert AcceptorOk(s, s.acc[b]);
  }

  /** So a node that commits in order never fails to find a primary: it is the first
      member of the new view, was a member of the view before, and is the one that every
      other node finds. */
  lemma PrimaryIsAgreed(s: Sys, b: Node, c: Node, j: nat)
    requires Reachable(s) && TextStream.IsToken(s.first) && b in s.acc && c in s.acc
    requires 2 <= j <= s.acc[b].instanceH && j <= s.acc[c].instanceH
    ensures var h, g := History(s.acc[b]), History(s.acc[c]);
      var p := RsmSystem.PrimaryOf(s.first, h, j - 1);
      && h[j] != [] && Rsm.Pick(p, h[j - 1], h[j]) == Rsm.Some(h[j][0]) && h[j][0] in h[j - 1]
      && RsmSystem.PrimaryOf(s.first, h, j) == h[j][0] == RsmSystem.PrimaryOf(s.first, g, j)
  {
    var h, g := History(s.acc[b]), History(s.acc[c]);
    HistoryIsGood(s, b);
    HistoryIsGood(s, c);
    RsmSystem.PrimaryIsFirst(s.first, h, j);
    RsmSystem.PrimaryIsFirst(s.first, g, j);
    RsmSystem.InOrderPrimary(s.first, h, j);
    HistoriesAgree(s, b, c, j);
  }
}
