/**
 * The payment session (Crowdfunding\Payment\Session): the record that ties
 * the order id generated for the payment form to the backer's intent. The
 * session table itself belongs to the component, not to the plugin; the
 * plugin only reads a session's owner, project and reward and binds its
 * unique key.
 */
module Session {

  class PaymentSession {
    const userId: int
    const projectId: int
    const rewardId: int
    const anonymous: bool
    var uniqueKey: string

    constructor (userId: int, projectId: int, rewardId: int, anonymous: bool)
      ensures this.userId == userId && this.projectId == projectId
      ensures this.rewardId == rewardId && this.anonymous == anonymous
      ensures uniqueKey == ""
    {
      this.userId := userId;
      this.projectId := projectId;
      this.rewardId := rewardId;
      this.anonymous := anonymous;
      uniqueKey := "";
    }

    /** setUniqueKey followed by storeUniqueKey. */
    method SetUniqueKey(key: string)
      modifies this
      ensures uniqueKey == key
    {
      uniqueKey := key;
    }
  }
}
