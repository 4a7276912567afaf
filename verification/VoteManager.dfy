// src/core/vote.ts, class VoteManager, updated in place.
module VoteManager {
  import opened Basics
  import opened DagBlock
  import opened Votes

  // getSiblings: the competitors of a hash in the first slot, in registration order, that lists it in a conflict.
  function CompetitorsIn(v: VoteState, slots: seq<Slot>, h: Hash): seq<Hash> {
    if slots == [] then []
    else if h in Siblings(v, slots[0]) && |Siblings(v, slots[0])| > 1 then Losers(Siblings(v, slots[0]), h)
    else CompetitorsIn(v, slots[1..], h)
  }

  lemma LosersGrow(hs: seq<Hash>, i: nat, winner: Hash)
    requires i < |hs|
    ensures Losers(hs[..i + 1], winner) == Losers(hs[..i], winner) + if hs[i] == winner then [] else [hs[i]]
  {
    assert hs[..i + 1][..i] == hs[..i];
  }

  // One more sibling settled.
  lemma SettledMore(hs: seq<Hash>, i: nat, winner: Hash)
    requires i < |hs|
    ensures var before, after := Losers(hs[..i], winner), Losers(hs[..i + 1], winner);
            && after == before + (if hs[i] == winner then [] else [hs[i]])
            && Elements(after) == Elements(before) + (if hs[i] == winner then {} else {hs[i]})
            && Elements(hs[..i + 1]) == Elements(hs[..i]) + {hs[i]}
  {
    LosersGrow(hs, i, winner);
    assert hs[..i + 1] == hs[..i] + [hs[i]];
  }

  // What a survey of some tallies has found.
  ghost predicate Surveyed(tallies: map<Hash, Tally>, hs: seq<Hash>, best: int, bestStake: int, oldest: int, allVoted: bool) {
    && hs != [] && AllTallied(tallies, hs) && best == Leader(tallies, hs) && bestStake == tallies[hs[best]].approveStake
    && oldest == Oldest(tallies, hs) && (allVoted <==> AllVoted(tallies, hs))
  }

  lemma SurveyFirst(tallies: map<Hash, Tally>, hs: seq<Hash>)
    requires hs != [] && hs[0] in tallies
    ensures var t := tallies[hs[0]];
            Surveyed(tallies, hs[..1], 0, t.approveStake, t.createdAt, t.totalStake + t.abstainStake != 0)
  {
    assert hs[..1] == [hs[0]];
  }

  // One pass of the scan.
  lemma SurveyOneMore(tallies: map<Hash, Tally>, hs: seq<Hash>, i: nat, best: int, bestStake: int, oldest: int, allVoted: bool)
    requires i < |hs| && hs[i] in tallies && Surveyed(tallies, hs[..i], best, bestStake, oldest, allVoted)
    ensures var t := tallies[hs[i]];
            Surveyed(tallies, hs[..i + 1], if t.approveStake > bestStake then i else best, Max(bestStake, t.approveStake),
                     Min(oldest, t.createdAt), allVoted && t.totalStake + t.abstainStake != 0)
  {
    var more := hs[..i + 1];
    assert more == hs[..i] + [hs[i]] && more[..|more| - 1] == hs[..i] && more[i] == hs[i];
    assert forall g :: g in more <==> g in hs[..i] || g == hs[i];
  }

  class VoteManager {
    var confirmedBlocks: set<Hash>
    var rejectedBlocks: set<Hash>
    var parentToBlocks: map<Slot, seq<Hash>>
    var slotOrder: seq<Slot>
    var tallies: map<Hash, Tally>
    var seenSignatures: seq<string>

    ghost function State(): VoteState
      reads this
    {
      VoteState(confirmedBlocks, rejectedBlocks, parentToBlocks, slotOrder, tallies, seenSignatures)
    }

    constructor ()
      ensures State() == NO_VOTES
    {
      confirmedBlocks, rejectedBlocks, parentToBlocks, slotOrder, tallies, seenSignatures := {}, {}, map[], [], map[], [];
    }

    // A further sibling revokes optimistic confirmations and opens a tally for every sibling without one.
    method OpenConflict(siblings: seq<Hash>, now: int)
      modifies this`confirmedBlocks, this`tallies
      ensures confirmedBlocks == old(confirmedBlocks) - Elements(siblings)
      ensures tallies == old(tallies) + Opened(old(tallies), siblings, now)
    {
      for i := 0 to |siblings|
        invariant confirmedBlocks == old(confirmedBlocks) - Elements(siblings[..i])
        invariant tallies == old(tallies) + Opened(old(tallies), siblings[..i], now)
      {
        var hash := siblings[i];
        assert siblings[..i + 1] == siblings[..i] + [hash];
        confirmedBlocks := confirmedBlocks - {hash};
        if hash !in tallies {
          tallies := tallies[hash := EmptyTally(now)];
        }
      }
      assert siblings[..|siblings|] == siblings;
    }

    method RegisterBlock(blockHash: Hash, previousHash: Hash, accountPub: Pub, now: int) returns (r: Registration)
      modifies this
      ensures State() == Register(old(State()), blockHash, Slot(accountPub, previousHash), now)
      ensures r == Outcome(old(State()), blockHash, Slot(accountPub, previousHash))
    {
      if blockHash in confirmedBlocks { return Confirmed; }
      if blockHash in rejectedBlocks { return Conflict; }
      var key := Slot(accountPub, previousHash);
      if key !in parentToBlocks {
        parentToBlocks, slotOrder := parentToBlocks[key := []], slotOrder + [key];
      }
      if blockHash !in parentToBlocks[key] {
        parentToBlocks := parentToBlocks[key := parentToBlocks[key] + [blockHash]];
      }
      var siblings := parentToBlocks[key];
      assert siblings == Joined(old(State()), blockHash, key);
      assert parentToBlocks == old(parentToBlocks)[key := siblings];
      if |siblings| == 1 {
        confirmedBlocks := confirmedBlocks + {blockHash};
        return Confirmed;
      }
      OpenConflict(siblings, now);
      return Conflict;
    }

    method AddVote(vote: Vote, now: int)
      modifies this`tallies, this`seenSignatures
      ensures State() == Votes.AddVote(old(State()), vote, now)
    {
      if vote.blockHash !in tallies { return; }
      var tally := tallies[vote.blockHash];
      if vote.voterPub in tally.votes { return; }
      if vote.signature in seenSignatures { return; }
      seenSignatures := seenSignatures + [vote.signature];
      if |seenSignatures| > MAX_SEEN_SIGS {
        seenSignatures := seenSignatures[1..];
      }
      if now - vote.timestamp > VOTE_MAX_AGE_MS { return; }
      tally := tally.(votes := tally.votes[vote.voterPub := vote], voterCount := tally.voterCount + 1);
      if vote.abstain {
        tally := tally.(abstainStake := tally.abstainStake + vote.stake);
      } else if vote.approve {
        tally := tally.(approveStake := tally.approveStake + vote.stake, totalStake := tally.totalStake + vote.stake);
      } else {
        tally := tally.(rejectStake := tally.rejectStake + vote.stake, totalStake := tally.totalStake + vote.stake);
      }
      tallies := tallies[vote.blockHash := tally];
    }

    // The scan of resolveConflicts over one slot's tallies: the leader, the oldest tally, and whether all have votes.
    method Survey(hashes: seq<Hash>) returns (best: nat, oldest: int, allVoted: bool)
      requires hashes != [] && AllTallied(tallies, hashes)
      ensures best < |hashes| && best == Leader(tallies, hashes)
      ensures oldest == Oldest(tallies, hashes) && (allVoted <==> AllVoted(tallies, hashes))
    {
      assert forall i :: 0 <= i < |hashes| ==> hashes[i] in tallies;
      SurveyFirst(tallies, hashes);
      var first := tallies[hashes[0]];
      var bestStake := first.approveStake;
      best, oldest, allVoted := 0, first.createdAt, first.totalStake + first.abstainStake != 0;
      for i := 1 to |hashes|
        invariant Surveyed(tallies, hashes[..i], best, bestStake, oldest, allVoted)
      {
        SurveyOneMore(tallies, hashes, i, best, bestStake, oldest, allVoted);
        var tally := tallies[hashes[i]];
        if tally.createdAt < oldest { oldest := tally.createdAt; }
        if tally.totalStake + tally.abstainStake == 0 { allVoted := false; }
        if tally.approveStake > bestStake { best, bestStake := i, tally.approveStake; }
      }
      assert hashes[..|hashes|] == hashes;
    }

    // Resolving one slot: the winner is confirmed, every other sibling rejected, and all their tallies dropped.
    method Settle(hashes: seq<Hash>, winner: Hash) returns (losers: seq<Hash>)
      requires winner in hashes
      modifies this`confirmedBlocks, this`rejectedBlocks, this`tallies
      ensures losers == Losers(hashes, winner)
      ensures confirmedBlocks == old(confirmedBlocks) + {winner} && rejectedBlocks == old(rejectedBlocks) + Elements(losers)
      ensures tallies == old(tallies) - Elements(hashes)
    {
      confirmedBlocks := confirmedBlocks + {winner};
      tallies := tallies - {winner};
      losers := [];
      for i := 0 to |hashes|
        invariant losers == Losers(hashes[..i], winner) && confirmedBlocks == old(confirmedBlocks) + {winner}
        invariant rejectedBlocks == old(rejectedBlocks) + Elements(Losers(hashes[..i], winner))
        invariant tallies == old(tallies) - (Elements(hashes[..i]) + {winner})
      {
        SettledMore(hashes, i, winner);
        if hashes[i] != winner {
          rejectedBlocks := rejectedBlocks + {hashes[i]};
          tallies := tallies - {hashes[i]};
          losers := losers + [hashes[i]];
        }
      }
      assert hashes[..|hashes|] == hashes;
    }

    // One pass of the outer loop of resolveConflicts.
    method ResolveKey(key: Slot, now: int) returns (winner: Option<Hash>, losers: seq<Hash>)
      modifies this`confirmedBlocks, this`rejectedBlocks, this`tallies
      ensures winner == Decision(old(tallies), Siblings(old(State()), key), now)
      ensures winner.None? ==> State() == old(State()) && losers == []
      ensures winner.Some? ==>
                && losers == Losers(Siblings(old(State()), key), winner.value)
                && confirmedBlocks == old(confirmedBlocks) + {winner.value}
                && rejectedBlocks == old(rejectedBlocks) + Elements(losers)
                && tallies == old(tallies) - Elements(Siblings(old(State()), key))
    {
      var hashes := if key in parentToBlocks then parentToBlocks[key] else [];
      if |hashes| <= 1 || !AllTallied(tallies, hashes) { return None, []; }
      var best, oldest, allVoted := Survey(hashes);
      assert hashes[best] in hashes;
      var bestTally := tallies[hashes[best]];
      var thresholdMet := bestTally.totalStake > 0 && 3 * bestTally.approveStake >= 2 * bestTally.totalStake;
      var timedOut := now - oldest > CONFLICT_RESOLVE_TIMEOUT_MS;
      if thresholdMet || (timedOut && bestTally.approveStake > 0) || (timedOut && allVoted) {
        losers := Settle(hashes, hashes[best]);
        return Some(hashes[best]), losers;
      }
      return None, [];
    }

    method ResolveConflicts(now: int) returns (confirmed: seq<Hash>, rejected: seq<Hash>)
      modifies this`confirmedBlocks, this`rejectedBlocks, this`tallies
      ensures Resolution(State(), confirmed, rejected) == Votes.ResolveConflicts(old(State()), now)
    {
      confirmed, rejected := [], [];
      for s := 0 to |slotOrder|
        invariant Resolution(State(), confirmed, rejected) == ResolveSlots(old(State()), slotOrder[..s], now)
      {
        assert slotOrder[..s + 1][..s] == slotOrder[..s];
        var winner, losers := ResolveKey(slotOrder[s], now);
        if winner.Some? {
          confirmed, rejected := confirmed + [winner.value], rejected + losers;
        }
      }
      assert slotOrder[..|slotOrder|] == slotOrder;
    }

    method GetSiblings(blockHash: Hash) returns (competitors: seq<Hash>)
      ensures competitors == CompetitorsIn(State(), slotOrder, blockHash)
    {
      for s := 0 to |slotOrder|
        invariant CompetitorsIn(State(), slotOrder, blockHash) == CompetitorsIn(State(), slotOrder[s..], blockHash)
      {
        var siblings := if slotOrder[s] in parentToBlocks then parentToBlocks[slotOrder[s]] else [];
        if blockHash in siblings && |siblings| > 1 {
          competitors := [];
          for i := 0 to |siblings|
            invariant competitors == Losers(siblings[..i], blockHash)
          {
            LosersGrow(siblings, i, blockHash);
            if siblings[i] != blockHash { competitors := competitors + [siblings[i]]; }
          }
          assert siblings[..|siblings|] == siblings;
          return;
        }
        assert slotOrder[s..][1..] == slotOrder[s + 1..];
      }
      competitors := [];
    }
  }
}
