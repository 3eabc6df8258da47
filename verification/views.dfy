/** Read-only views: GET /api/v1/stats, GET /api/v1/agents (the leaderboard)
    and GET /api/v1/heartbeat. */
module Views {
  import opened Wrappers
  import opened Seqs
  import opened StableSort
  import opened State
  import opened Auth

  datatype Stats = Stats(agents: nat, activeAgents: nat, posts: nat, votes: nat)

  function GetStats(s: Store): (r: Stats)
    ensures r.agents == |s.agents| && r.posts == |s.posts| && r.votes == |s.votes|
    ensures r.activeAgents == |set i | 0 <= i < |s.agents| && s.agents[i].status == Active|
    ensures r.activeAgents <= r.agents
    ensures r.activeAgents == |s.agents| <==> forall i :: 0 <= i < |s.agents| ==> s.agents[i].status == Active
  {
    ActiveCountBound(s.agents);
    ActiveCountCountsIndices(s.agents, |s.agents|);
    assert s.agents[..|s.agents|] == s.agents;
    Stats(|s.agents|, ActiveCount(s.agents), |s.posts|, |s.votes|)
  }

  /** The active count of a prefix is the number of its indices holding an active agent. */
  lemma {:induction false} ActiveCountCountsIndices(agents: seq<Agent>, n: nat)
    requires n <= |agents|
    ensures ActiveCount(agents[..n]) == |set i | 0 <= i < n && agents[i].status == Active|
  {
    if n > 0 {
      ActiveCountCountsIndices(agents, n - 1);
      assert agents[..n] == agents[..n - 1] + [agents[n - 1]];
      Seqs.CountSnoc(agents[..n - 1], agents[n - 1], (a: Agent) => a.status == Active);
      var before := set i | 0 <= i < n - 1 && agents[i].status == Active;
      var after := set i | 0 <= i < n && agents[i].status == Active;
      if agents[n - 1].status == Active {
        assert after == before + {n - 1};
      } else {
        assert after == before;
      }
    }
  }

  lemma {:induction false} ActiveCountBound(agents: seq<Agent>)
    ensures ActiveCount(agents) <= |agents|
    ensures ActiveCount(agents) == |agents| <==> forall i :: 0 <= i < |agents| ==> agents[i].status == Active
  {
    if |agents| > 0 {
      ActiveCountBound(agents[1..]);
      Seqs.CountCons(agents[0], agents[1..], (a: Agent) => a.status == Active);
      assert agents == [agents[0]] + agents[1..];
      if forall i :: 1 <= i < |agents| ==> agents[i].status == Active {
        assert forall i :: 0 <= i < |agents[1..]| ==> agents[1..][i].status == Active;
      }
      if forall i :: 0 <= i < |agents[1..]| ==> agents[1..][i].status == Active {
        assert forall i :: 1 <= i < |agents| ==> agents[i].status == Active by {
          forall i | 1 <= i < |agents| ensures agents[i].status == Active {
            assert agents[i] == agents[1..][i - 1];
          }
        }
      }
    }
  }

  /** One leaderboard row: the agent without its key, owner or status. */
  datatype Summary = Summary(id: AgentId, name: string, model: string, karma: int, postCount: int, createdAt: int)

  function Summarize(a: Agent): Summary
  {
    Summary(a.id, a.name, a.model, a.karma, a.postCount, a.createdAt)
  }

  function SummaryKarma(x: Summary): int { x.karma }

  /** `agents.filter(active).map(summary)` */
  function ActiveSummaries(agents: seq<Agent>): (r: seq<Summary>)
    ensures |r| == ActiveCount(agents)
    ensures forall x :: x in r ==> exists i :: 0 <= i < |agents| && agents[i].status == Active && Summarize(agents[i]) == x
    ensures forall i :: 0 <= i < |agents| && agents[i].status == Active ==> Summarize(agents[i]) in r
  {
    if |agents| == 0 then []
    else
      Seqs.CountCons(agents[0], agents[1..], (a: Agent) => a.status == Active);
      assert agents == [agents[0]] + agents[1..];
      var rest := ActiveSummaries(agents[1..]);
      assert forall i :: 1 <= i < |agents| ==> agents[i] == agents[1..][i - 1];
      if agents[0].status == Active then [Summarize(agents[0])] + rest else rest
  }

  const LeaderboardSize: nat := 20

  /** The public leaderboard: the stable sort of the active agents by karma, cut
      at 20.  Rows come from distinct active agents, nobody left out outranks a
      row, and among equal karma the earlier-registered agents are the ones kept. */
  function Leaderboard(agents: seq<Agent>): (r: seq<Summary>)
    ensures |r| == Min(20, ActiveCount(agents))
    ensures multiset(r) <= multiset(ActiveSummaries(agents))
    ensures SortedDesc(r, SummaryKarma)
    ensures forall x :: x in r ==> exists i :: 0 <= i < |agents| && agents[i].status == Active && Summarize(agents[i]) == x
    ensures forall i, x :: 0 <= i < |agents| && agents[i].status == Active && Summarize(agents[i]) !in r && x in r ==>
      agents[i].karma <= x.karma
    ensures forall k :: WithKey(r, SummaryKarma, k) <= WithKey(ActiveSummaries(agents), SummaryKarma, k)
  {
    var active := ActiveSummaries(agents);
    var ranking := Sort(active, SummaryKarma);
    SortSorted(active, SummaryKarma);
    forall k ensures WithKey(ranking, SummaryKarma, k) == WithKey(active, SummaryKarma, k) {
      SortStable(active, SummaryKarma, k);
    }
    var n := Min(LeaderboardSize, |ranking|);
    assert |ranking| == |active| by {
      assert |multiset(ranking)| == |multiset(active)|;
    }
    TopOfRanking(active, ranking, n);
    ranking[..n]
  }

  /** The first `n` of a stable sort of `active`: drawn from `active`, still
      sorted, outranking everything cut, and keeping ties in their first-come order. */
  lemma TopOfRanking(active: seq<Summary>, ranking: seq<Summary>, n: nat)
    requires multiset(ranking) == multiset(active)
    requires SortedDesc(ranking, SummaryKarma)
    requires forall k :: WithKey(ranking, SummaryKarma, k) == WithKey(active, SummaryKarma, k)
    requires n <= |ranking|
    ensures multiset(ranking[..n]) <= multiset(active)
    ensures SortedDesc(ranking[..n], SummaryKarma)
    ensures forall x :: x in ranking[..n] ==> x in active
    ensures forall y, x :: y in active && y !in ranking[..n] && x in ranking[..n] ==> y.karma <= x.karma
    ensures forall k :: WithKey(ranking[..n], SummaryKarma, k) <= WithKey(active, SummaryKarma, k)
  {
    var r := ranking[..n];
    assert ranking == r + ranking[n..];
    assert multiset(ranking) == multiset(r) + multiset(ranking[n..]);
    forall k ensures WithKey(r, SummaryKarma, k) <= WithKey(active, SummaryKarma, k) {
      WithKeyPrefix(ranking, SummaryKarma, k, n);
    }
    forall x | x in r ensures x in active {
      assert x in multiset(ranking);
    }
    forall y, x | y in active && y !in r && x in r ensures y.karma <= x.karma {
      assert y in multiset(ranking);
      var p :| 0 <= p < |ranking| && ranking[p] == y;
      var q :| 0 <= q < n && r[q] == x;
      assert ranking[q] == x;
    }
  }

  /** With at most 20 active agents the leaderboard lists every one of them, once. */
  lemma LeaderboardListsAllWhenFew(agents: seq<Agent>)
    requires ActiveCount(agents) <= LeaderboardSize
    ensures multiset(Leaderboard(agents)) == multiset(ActiveSummaries(agents))
  {
    var r := Leaderboard(agents);
    var active := ActiveSummaries(agents);
    var extra := multiset(active) - multiset(r);
    assert multiset(active) == multiset(r) + extra;
    assert |multiset(active)| == |multiset(r)| + |extra|;
    assert |extra| == 0;
  }

  datatype PostBrief = PostBrief(id: PostId, title: string, subhub: string)

  datatype Heartbeat = Heartbeat(agent: string, karma: int, posts: int, recent: seq<PostBrief>)

  const RecentCount: nat := 3

  /** GET /api/v1/heartbeat behind the auth gate: the agent's counters and the
      three posts at the head of the store. */
  function GetHeartbeat(s: Store, header: Option<string>): (r: Result<Heartbeat, Error>)
    ensures RequireAuth(s.agents, header).Failure? ==> r == Failure(RequireAuth(s.agents, header).error)
    ensures r.Success? <==> RequireAuth(s.agents, header).Success?
    ensures r.Success? ==>
      var a := s.agents[RequireAuth(s.agents, header).value];
      && r.value.agent == a.name && r.value.karma == a.karma && r.value.posts == a.postCount
      && |r.value.recent| == Min(3, |s.posts|)
      && forall k :: 0 <= k < |r.value.recent| ==>
           r.value.recent[k] == PostBrief(s.posts[k].id, s.posts[k].title, s.posts[k].subhub)
  {
    match RequireAuth(s.agents, header)
    case Failure(e) => Failure(e)
    case Success(i) =>
      var a := s.agents[i];
      var head := s.posts[..Min(RecentCount, |s.posts|)];
      Success(Heartbeat(a.name, a.karma, a.postCount,
                        seq(|head|, k requires 0 <= k < |head| => PostBrief(head[k].id, head[k].title, head[k].subhub))))
  }
}
