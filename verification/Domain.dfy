/** The values that travel between the relay, the mission store and the chain reader. */
module Domain {

  datatype Option<+T> = None | Some(value: T)

  datatype Result<+T> = Ok(value: T) | Err(reason: Reason)

  /** The reason codes callers switch on; CHAIN_READ_FAILED stands for any thrown RPC error. */
  datatype Reason =
    // relay
    | DUPLICATE_INTENT | SELF_PASS | WRONG_CURRENT_HOLDER | NO_ACTIVE_INTENT
    | PAYMENT_RAIL_SNAPSHOT_LOCKED | PAYMENT_RAIL_UNVERIFIED | DUPLICATE_TX_HASH | HOP_NOT_FOUND
    | WRONG_SENDER | WRONG_RECIPIENT | WRONG_AMOUNT | MISSING_HOP_COMMITMENT | WRONG_HOP_COMMITMENT | WRONG_BATON_TAG
    | STALE_INTENT | CANNOT_CANCEL_BROADCAST | AMBIGUOUS_MATCHING_BROADCAST | CHAIN_READ_FAILED
    // missions
    | MISSION_NOT_FOUND | MISSION_EXISTS | MISSION_NOT_ACTIVE | NOT_MISSION_AUTHORITY | MISSION_ALREADY_MOVED
    | OPEN_INVITATION | TARGET_CONSENT_REQUIRED | TARGET_IS_CREATOR | TARGET_ALREADY_BOUND | TARGET_NOT_BOUND
    | DESTINATION_CLAIM_NOT_FOUND | DESTINATION_CLAIM_ALREADY_OPEN | DESTINATION_CLAIM_TOKEN_COLLISION
    | DESTINATION_CLAIM_MISSION_MISMATCH | DESTINATION_CLAIM_CLOSED | DESTINATION_CLAIM_EXPIRED | DESTINATION_CLAIM_TAKEN
    | INVITATION_NOT_FOUND | WRONG_SEQUENCE | OPEN_INVITATION_EXISTS | INVITE_TOKEN_COLLISION
    | INVITATION_NOT_REISSUABLE | INVITATION_NOT_INVITED | INVITATION_EXPIRED | WRONG_INVITEE_WALLET
    | INVITATION_ALREADY_CLOSED | CANNOT_DECLINE_ACCEPTED | INVITATION_NOT_DUE
    | WRONG_FINAL_RECIPIENT | FINALIZATION_SEQUENCE_RACE | INVITATION_HOP_MISMATCH | INVITATION_NOT_ACCEPTED
    | AUTH_MISSION_MISMATCH | AUTH_INVITATION_MISMATCH | AUTH_SEQUENCE_MISMATCH
    | ROUTE_WALLET_REUSE | BROADCAST_IN_FLIGHT | ACTIVE_PASS_RECIPIENT_REQUIRED | PASS_INTENT_RECIPIENT_MISMATCH
    // coordinator
    | AUTH_BINDING_MISMATCH | INVITATION_SEQUENCE_MISMATCH | PASS_DEADLINE_EXPIRED | DESTINATION_NOT_CLAIMED
    | STALE_BROADCASTED_INTENT | RELAY_INTENT_CONFLICT | NO_ACTIVE_PASS | DELIVERY_AUTHORIZATION_MISMATCH
    | INVITATION_PASS_MISMATCH | FINAL_HOP_WITHOUT_ACCEPTED_INVITATION | FINAL_HOP_WITHOUT_DESTINATION_CLAIM
    | WRONG_AUTH_ACTION | TARGET_DECRYPT_FAILED | PERSISTENCE_FAILED | REPOSITORY_UNAVAILABLE
    // broadcast capabilities
    | CAPABILITY_TTL_INVALID | CAPABILITY_NOT_FOUND | CAPABILITY_REPLAY | CAPABILITY_EXPIRED
    | CAPABILITY_BINDING_MISMATCH | PASS_INTENT_EXPIRED

  const ONE_NIM_IN_LUNA := 100_000

  datatype MissionAction =
    | CREATE_MISSION | CREATE_INVITATION | ACCEPT_INVITATION | WITHDRAW_INVITATION | AUTHORIZE_PASS | CANCEL_MISSION
    | CREATE_DESTINATION_CLAIM | CLAIM_DESTINATION | VIEW_ROUTE

  /** A verified wallet signature and the mission state it is bound to. */
  datatype WalletAction = WalletAction(
    action: MissionAction,
    wallet: string,
    missionId: Option<string>,
    invitationId: Option<string>,
    sequence: Option<int>)

  datatype HopStatus = PENDING | INCLUDED | FINAL | CANCELLED | INVALID

  /** One exact payment, committed before anything is broadcast. */
  datatype PassIntent = PassIntent(
    batonId: string,
    sequence: int,
    invitationId: Option<string>,
    currentHolder: string,
    recipient: string,
    authorizedPaymentWallets: seq<string>,
    nonce: string,
    recipientData: Option<string>,
    createdAt: int)

  datatype Hop = Hop(
    batonId: string,
    sequence: int,
    invitationId: Option<string>,
    currentHolder: string,
    recipient: string,
    nonce: string,
    txHash: Option<string>,
    value: Option<int>,
    status: HopStatus,
    createdAt: int,
    confirmedAt: Option<int>)

  /** What a chain reader reports about one transaction. Untrusted input. */
  datatype Tx = Tx(
    hash: string,
    sender: string,
    to: string,
    value: int,
    blockNumber: Option<int>,
    senderType: Option<string>,
    recipientType: Option<string>,
    recipientData: Option<string>)

  datatype Account = Account(accountType: string, sender: Option<string>, totalAmount: Option<int>)

  /** Any chain read may fail; Down stands for the thrown error. */
  datatype Answer<+T> = Reply(value: T) | Down

  /** The chain reader's answers during one relay call. History and account lookups are optional methods. */
  datatype Rpc = Rpc(
    transaction: string -> Answer<Option<Tx>>,
    head: Answer<int>,
    history: Option<string -> Answer<seq<Tx>>>,
    account: Option<string -> Answer<Option<Account>>>)
}
