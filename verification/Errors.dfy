/** What operations can fail with. */
module Errors {
  import opened Options

  datatype Error =
    | Overflow | Underflow | InvalidBytesSize | ElapsedTimestamp
    | NotFound | Unauthorized
    | InvalidTransaction | NonceNotExecutable | ExceedBlockMaxCPUUsage | ExceedBlockMaxNetUsage | PointNotEnough
    | BalanceNotEnough | StakingNotEnough
    | OverMaxVote | DuplicateVote | AlreadyCandidate | NotCandidate | NotEnoughCandidateCollateral
    | AliasCollateralLimit | AliasAlreadyHave | AliasAlreadyTaken | AliasNotExist
    | NotGenesisBlock | GenesisDistributionAllowedOnce | CoinbaseNotSet
    | InvalidBlockProposer | WrongReceipt | InvalidCPUPrice | InvalidNetPrice | InvalidBlockReward | InvalidBlockSupply
    | InvalidBlockRoot | BlockMintedInNextSlot | WaitingBlockInLastSlot | InvalidBlockHeight | InvalidTimestamp
    | InvalidBlockInterval | InvalidCPUUsage | WrongCPUUsage | InvalidNetUsage | WrongNetUsage
    | DuplicatedTransaction | NonceNotAcceptable | FailedToReplacePendingTx

  type Result<T> = Outcome<T, Error>
}
