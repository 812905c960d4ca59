/**
 * The transaction data the plugin assembles from a notification and hands
 * to the transaction table: the array built at payeer.php lines 394-406,
 * plus the receiver id added before storing.
 */
module Transaction {
  import opened Wrappers

  const SERVICE_PROVIDER := "Payeer"
  const SERVICE_ALIAS := "payeer"

  /** The two statuses a notification can carry after normalisation. */
  const COMPLETED := "completed"
  const FAIL := "fail"

  /** The bound columns of a transaction; receiverId is None until the project owner is filled in. */
  datatype TxnFields = TxnFields(
    investorId: int,
    projectId: int,
    rewardId: int,
    serviceProvider: string,
    serviceAlias: string,
    txnId: string,
    amount: string,
    currency: string,
    status: string,
    date: string,
    receiverId: Option<int>)

  /** A transaction draft: the fields to bind, and the raw notification fields kept as extra data. */
  datatype Draft = Draft(fields: TxnFields, extraData: map<string, string>)
}
