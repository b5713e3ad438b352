/** The option tally of vote.rs: `options` maps an option to its vote count,
    `votes` maps a voter to how many times that voter has voted (u64 in the
    source, `nat` here). Nothing limits how often one voter votes. */
module Vote {
  import opened Ledgers

  /** The messages of the contract's `assert!`s. */
  datatype VoteError = OptionAlreadyExists | OptionNotFound

  /** The contract's persistent fields, as one value. */
  datatype Tally = Tally(options: map<string, nat>, votes: map<AccountId, nat>)

  /** `add_option`: rejects an existing option, otherwise adds it with no
      votes; the voters' counts and every other option stay as they were. */
  function AddOptionStep(s: Tally, option: string): (t: Transition<Tally, VoteError>)
    ensures t.outcome.Rejected? <==> option in s.options
    ensures t.outcome.Rejected? ==> t.outcome.reason == OptionAlreadyExists && t.next == s
    ensures t.outcome.Accepted? ==>
      && t.next.options.Keys == s.options.Keys + {option}
      && t.next.options[option] == 0
      && (forall o :: o in s.options ==> t.next.options[o] == s.options[o])
      && t.next.votes == s.votes
  {
    if option in s.options then Transition(Rejected(OptionAlreadyExists), s)
    else Transition(Accepted, s.(options := s.options[option := 0]))
  }

  /** `vote`: the option must exist; then the voter's count and the option's
      count each go up by exactly one, whoever the voter is and however often
      they have voted before. */
  function VoteStep(s: Tally, voter: AccountId, option: string): (t: Transition<Tally, VoteError>)
    ensures t.outcome.Rejected? <==> option !in s.options
    ensures t.outcome.Rejected? ==> t.outcome.reason == OptionNotFound && t.next == s
    ensures t.outcome.Accepted? ==>
      && t.next.options.Keys == s.options.Keys
      && t.next.options[option] == s.options[option] + 1
      && (forall o :: o in s.options && o != option ==> t.next.options[o] == s.options[o])
      && Get(t.next.votes, voter) == Get(s.votes, voter) + 1
      && t.next.votes.Keys == s.votes.Keys + {voter}
      && (forall v :: v in s.votes && v != voter ==> t.next.votes[v] == s.votes[v])
  {
    if option !in s.options then Transition(Rejected(OptionNotFound), s)
    else
      var voteCount := Get(s.votes, voter);
      var votes := s.votes[voter := voteCount + 1];
      var optionCount := Get(s.options, option);
      Transition(Accepted, Tally(s.options[option := optionCount + 1], votes))
  }

  /** The votes counted for the options are exactly the votes cast. */
  ghost predicate Balanced(s: Tally)
  {
    Total(s.options) == Total(s.votes)
  }

  lemma AddOptionKeepsBalance(s: Tally, option: string)
    requires Balanced(s)
    ensures Balanced(AddOptionStep(s, option).next)
  {
    if option !in s.options {
      TotalUpdate(s.options, option, 0);
    }
  }

  lemma VoteKeepsBalance(s: Tally, voter: AccountId, option: string)
    requires Balanced(s)
    ensures Balanced(VoteStep(s, voter, option).next)
  {
    if option in s.options {
      TotalUpdate(s.votes, voter, Get(s.votes, voter) + 1);
      TotalUpdate(s.options, option, s.options[option] + 1);
    }
  }

  /** A voter who has voted once is let through again, and counted again. */
  lemma RepeatVoteAccepted(s: Tally, voter: AccountId, first: string, second: string)
    requires first in s.options && second in s.options
    ensures
      var t1 := VoteStep(s, voter, first);
      var t2 := VoteStep(t1.next, voter, second);
      && t1.outcome == Accepted && t2.outcome == Accepted
      && Get(t2.next.votes, voter) == Get(s.votes, voter) + 2
  {
  }

  /** A call to the voting contract, with the caller made explicit. */
  datatype VoteCall = AddOption(option: string) | CastVote(voter: AccountId, option: string)

  function Apply(s: Tally, call: VoteCall): Tally
  {
    match call
    case AddOption(option) => AddOptionStep(s, option).next
    case CastVote(voter, option) => VoteStep(s, voter, option).next
  }

  /** The tally after the calls `calls`, in order. */
  function Run(s: Tally, calls: seq<VoteCall>): Tally
    decreases |calls|
  {
    if calls == [] then s else Run(Apply(s, calls[0]), calls[1..])
  }

  /** From a balanced tally (the empty one, say), any sequence of calls keeps
      the sum of the option counts equal to the sum of the voter counts. */
  lemma {:induction false} RunKeepsBalance(s: Tally, calls: seq<VoteCall>)
    requires Balanced(s)
    ensures Balanced(Run(s, calls))
    decreases |calls|
  {
    if calls != [] {
      match calls[0] {
        case AddOption(option) =>
          AddOptionKeepsBalance(s, option);
        case CastVote(voter, option) =>
          VoteKeepsBalance(s, voter, option);
      }
      RunKeepsBalance(Apply(s, calls[0]), calls[1..]);
    }
  }

  /** The deployed contract: its two persistent maps as fields. */
  class VotingContract {
    var options: map<string, nat>
    var votes: map<AccountId, nat>

    function State(): Tally
      reads this
    {
      Tally(options, votes)
    }

    ghost predicate Valid()
      reads this
    {
      Balanced(State())
    }

    constructor ()
      ensures Valid() && options == map[] && votes == map[]
    {
      options := map[];
      votes := map[];
    }

    /** `add_option`, checked before anything is written. */
    method AddOption(option: string) returns (outcome: Outcome<VoteError>)
      requires Valid()
      modifies this
      ensures Valid()
      ensures Transition(outcome, State()) == AddOptionStep(old(State()), option)
    {
      AddOptionKeepsBalance(State(), option);
      if option in options {
        return Rejected(OptionAlreadyExists);
      }
      options := options[option := 0];
      outcome := Accepted;
    }

    /** `vote` with `caller` standing for the predecessor account: first the
        caller's count, then the option's, each read and written back. */
    method Vote(caller: AccountId, option: string) returns (outcome: Outcome<VoteError>)
      requires Valid()
      modifies this
      ensures Valid()
      ensures Transition(outcome, State()) == VoteStep(old(State()), caller, option)
    {
      VoteKeepsBalance(State(), caller, option);
      if option !in options {
        return Rejected(OptionNotFound);
      }
      var voteCount := Get(votes, caller);
      votes := votes[caller := voteCount + 1];
      var optionCount := Get(options, option);
      options := options[option := optionCount + 1];
      outcome := Accepted;
    }

    /** `get_votes`: reads only; 0 for an unknown option, and on a valid
        contract never more than the number of votes cast. */
    function GetVotes(option: string): (count: nat)
      reads this
      ensures option !in options ==> count == 0
      ensures option in options ==> count == options[option]
      ensures Valid() ==> count <= Total(votes)
    {
      EntryAtMostTotal(options, option);
      Get(options, option)
    }
  }
}
