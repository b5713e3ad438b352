# NEAR contract ledgers in Dafny

A model of three small NEAR smart contracts, each a struct of persistent maps
changed by single-call methods:

- **Auction** (`auction.dfy`, module `Auction`): `items` maps an item id to its
  current price; `bids` maps an item id to the bids accepted for it, oldest
  first. `create_item` lists a new item; `place_bid` accepts only a bid
  strictly above the current price, appends it and makes it the price;
  `get_current_bid` reads the price.
- **Token** (`token.dfy`, module `Token`): `balances` maps an account to its
  balance, a missing account holding 0. `transfer` debits the caller and
  credits the receiver; `get_balance` reads a balance.
- **Vote** (`vote.dfy`, module `Vote`): `options` maps an option to its count,
  `votes` maps a voter to how many times they have voted. `add_option` adds an
  option at 0; `vote` adds one to the voter and one to the option; `get_votes`
  reads a count.

`ledgers.dfy` (module `Ledgers`) holds what the three share: the `Outcome` of a
call (`Accepted` or `Rejected(reason)`), `Get` (a map read that defaults to 0)
and `Total`, the sum of all values of a map, with the lemmas that let it be
updated one key at a time.

Each contract is written twice, and the two are tied together:

- A pure transition function on the contract's state as a value
  (`CreateItemStep`, `PlaceBidStep`, `TransferStep`, `AddOptionStep`,
  `VoteStep`). It returns the outcome and the next state. Its `ensures` give
  the guard as an if-and-only-if, say that a rejected call leaves the state
  equal to the old one, and say what an accepted call writes and what it
  leaves alone.
- A class with the contract's maps as fields (`AuctionContract`,
  `TokenContract`, `VotingContract`). Its methods perform the source's
  read-then-insert steps in the source's order. Each method is proved to
  produce exactly the outcome and state of the transition function. The class
  invariant `Valid()` is the contract's conservation or ordering law, and
  every method keeps it.

The lemmas about the transition functions state the contracts' laws:

- Auction: bid lists are strictly increasing and end at the current price.
  That makes the price the highest bid. Prices never go down, and bid lists
  are only ever extended.
- Token: the sum of all balances is conserved, over one call and over any
  sequence of calls. A self-transfer changes nothing.
- Vote: the option counts always sum to the voter counts.

The caller, which the source takes from `env::predecessor_account_id()`, is an
explicit parameter. Rejection is a returned `Rejected(..)`, never a
`requires`.

## Model

| member | source | states |
|---|---|---|
| Auction.CreateItemStep | auction.rs:14-17 | rejected with `ItemAlreadyExists` exactly when the id is already listed, and then nothing changes; otherwise the id is added at the starting price, every existing price is kept, and the bid lists are untouched |
| Auction.PlaceBidStep | auction.rs:19-31 | `ItemNotFound` exactly when the item is missing; `BidTooLow` exactly when the bid is at most the current price, equal bids included; accepted exactly when the item exists and the bid is above its price; a rejection changes nothing; an accepted bid is strictly above the old price and becomes the new price; exactly `(bidder, amount)` is appended to that item's list; every other price and list is unchanged |
| Auction.CreateItemPreservesWellFormed | auction.rs:14-17 | listing an item keeps every bid list non-empty, strictly increasing and ending at its item's price |
| Auction.PlaceBidPreservesWellFormed | auction.rs:24-30 | a bid, accepted or rejected, keeps every bid list strictly increasing and ending at its item's price |
| Auction.PriceIsHighestBid | auction.rs:24-30 | in a well-formed state, an item with bids has a price equal to its last bid and at least every bid placed on it |
| Auction.RunKeepsWellFormed | auction.rs:14-31 | any sequence of `create_item` and `place_bid` calls keeps the bid-list invariant |
| Auction.RunNeverLowersPrice | auction.rs:14-31 | along any sequence of calls, a listed item stays listed and its price never decreases |
| Auction.RunOnlyAppendsBids | auction.rs:26-28 | along any sequence of calls, an item's current bid list remains a prefix of its later bid list |
| Auction.CreateItemNotIdempotent | auction.rs:15 | a second `create_item` with the same id is always rejected, whatever the prices |
| Auction.BidScenario | auction.rs:14-31 | item 1 listed at 100: a bid of 100 is rejected, a bid of 150 is accepted and becomes the price, and a bid of 120 is then rejected and changes nothing |
| Auction.AuctionContract.constructor | auction.rs:7-10 | the contract starts with no items and no bids, which satisfies the invariant |
| Auction.AuctionContract.CreateItem | auction.rs:14-17 | the method's outcome and new fields are exactly those of `CreateItemStep` on the old fields; the invariant is kept |
| Auction.AuctionContract.PlaceBid | auction.rs:19-31 | the method reads the list, pushes the bid, writes the list back, then writes the price; its outcome and new fields are exactly those of `PlaceBidStep`; the invariant is kept |
| Auction.AuctionContract.GetCurrentBid | auction.rs:33-35 | reads only; returns the stored price, or 0 for an unknown item; on a valid contract no bid on the item is higher |
| Token.TransferStep | token.rs:13-20 | rejected exactly when the caller's balance (0 if absent) is below `amount`, and then nothing changes; with distinct parties an accepted transfer lowers the caller by `amount` and raises the receiver by `amount`; no third account changes |
| Token.SelfTransferChangesNothing | token.rs:18-19 | a transfer to oneself leaves every balance unchanged, because the receiver is read after the sender's write |
| Token.ReadingBothFirstWouldMint | token.rs:18-19 | had the receiver been read before the sender's write, an accepted self-transfer would raise the sum of all balances by `amount`; the source's read order is what keeps `transfer` conserving supply |
| Token.TransferConservesSupply | token.rs:13-20 | every transfer, accepted or rejected, leaves the sum of all balances unchanged |
| Token.RunConservesSupply | token.rs:13-20 | any sequence of transfers leaves the sum of all balances unchanged |
| Token.TransferScenario | token.rs:13-20 | with only C holding 100, A→B 50 is rejected; after C→A 100, A→B 50 is accepted, and then A holds 50, B holds 50 and C holds 0 |
| Token.TokenContract.constructor | token.rs:7-9 | the contract starts from the balances in storage; its ghost supply is their sum |
| Token.TokenContract.Transfer | token.rs:13-20 | the method writes the sender, then reads and writes the receiver; its outcome and new balances are exactly those of `TransferStep`; the supply is unchanged |
| Token.TokenContract.GetBalance | token.rs:22-24 | reads only; returns the stored balance, or 0 for an unknown account; on a valid contract it is at most the total supply |
| Vote.AddOptionStep | vote.rs:14-17 | rejected with `OptionAlreadyExists` exactly when the option exists, and then nothing changes; otherwise the option is added at 0, other options keep their counts, and the voter counts are untouched |
| Vote.VoteStep | vote.rs:19-28 | rejected with `OptionNotFound` exactly when the option is missing, and then nothing changes; the voter is never a reason for rejection; an accepted vote raises the option by exactly 1 and the voter by exactly 1; every other option and voter is unchanged |
| Vote.AddOptionKeepsBalance | vote.rs:16 | adding an option keeps the option counts' sum equal to the voter counts' sum |
| Vote.VoteKeepsBalance | vote.rs:23-27 | a vote, accepted or rejected, keeps the option counts' sum equal to the voter counts' sum |
| Vote.RepeatVoteAccepted | vote.rs:19-28 | a voter who has just voted is accepted again and their count rises by 2 in all |
| Vote.RunKeepsBalance | vote.rs:14-28 | any sequence of `add_option` and `vote` calls from a balanced tally keeps the two sums equal |
| Vote.VotingContract.constructor | vote.rs:7-10 | the contract starts with no options and no voters, a balanced tally |
| Vote.VotingContract.AddOption | vote.rs:14-17 | the method's outcome and new fields are exactly those of `AddOptionStep`; the balance invariant is kept |
| Vote.VotingContract.Vote | vote.rs:19-28 | the method updates the voter's count, then the option's count, each by read and insert; its outcome and new fields are exactly those of `VoteStep`; the balance invariant is kept |
| Vote.VotingContract.GetVotes | vote.rs:30-32 | reads only; returns the stored count, or 0 for an unknown option; on a valid contract it is at most the number of votes cast |

## Left out

- NEAR SDK plumbing is not modelled: `#[near_bindgen]`, the Borsh derives and the `near_sdk::collections` storage types. The collections are Dafny `map`s, and the `Vec` of bids is a `seq`.
- `env::predecessor_account_id()` is a runtime call. It is the `caller`/`sender`/`voter` parameter of each call.
- Panic-and-revert is not modelled. Every `assert!` comes before the first write, so a rejection is a returned `Rejected(..)` with the state unchanged.
- The source shows no initialiser (no `Default` or `#[init]`). The auction and vote constructors start from empty maps. The token constructor takes the balances already in storage, because the source has no way to mint.
- Token.TransferStep: balances are `nat`, so the receiver's credit never overflows. A `u64` addition may panic or wrap, depending on the build profile.
- Vote.VoteStep: voter and option counts are `nat`, so `+ 1` never overflows `u64`.
- Auction.PlaceBidStep: ids and prices are `nat` rather than `u64`. No arithmetic is done on them, so only the range differs.
- The pixel-frame marketplace is not part of this model. That covers its owners, prices, content map, global bounded purchase history, strict and lenient range loads, and randomness.
- Reading both balances before either write would create `amount` tokens on a self-transfer (`TransferReadingBothFirst`, `ReadingBothFirstWouldMint`). `transfer` reads the receiver after the sender's write, and the model follows that order.
- `get_current_bid` returns 0 for an unknown item, so an unknown item cannot be told apart from one priced at 0. The model follows the code.
