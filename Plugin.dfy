/**
 * The Payeer payment plugin's two working entry points: onProjectPayment,
 * which renders the signed payment form and binds its order id to the
 * payment session, and onPaymentNotify, which runs an inbound notification
 * through the address check, the signature gate, validateData and
 * storeTransaction and assembles the result array the component acts on.
 */
module Plugin {
  import opened Wrappers
  import opened Text
  import opened Amount
  import opened Signing
  import opened Transaction
  import opened Session
  import opened Notification
  import opened Store

  /**
   * The plugin settings as stored: merchant_id (None while it was never
   * saved, when the parameter reads as null), merchant_url, secret_key and
   * ip_filter.
   */
  datatype Config = Config(merchantId: Option<string>, merchantUrl: string, secretKey: string, ipFilter: string)

  /** JString::trim of the merchant_id setting; null trims to "". */
  function MerchantIdSetting(cfg: Config): string {
    Trim(cfg.merchantId.GetOr(""))
  }

  // ------------------------------------------------------ onProjectPayment

  /** What onProjectPayment shows: the "payment receiver missing" message, or the payment form. */
  datatype PaymentPage =
    | ReceiverMissing
    | PaymentForm(action: string, orderId: string, hidden: seq<(string, string)>)

  const FORM_FIELD_NAMES: seq<string> := ["m_shop", "m_orderid", "m_amount", "m_curr", "m_desc", "m_sign"]

  function Names(hidden: seq<(string, string)>): seq<string> {
    seq(|hidden|, i requires 0 <= i < |hidden| => hidden[i].0)
  }

  /**
   * onProjectPayment (lines 77-127) without the HTML: `random` is what the
   * random-string generator returned, `description` the rendered
   * "investing in <title>" text, `hash` SHA-256 in hex and `base64` the
   * encoder. The hidden fields carry the first five hashed values in the
   * order they are hashed, and m_sign is their signature with the secret.
   */
  function ProjectPayment(cfg: Config, random: string, amountCents: nat, currencyCode: string,
                          description: string, hash: string -> string, base64: string -> string)
    : (page: PaymentPage)
    ensures page.ReceiverMissing? <==> Falsy(MerchantIdSetting(cfg))
    ensures page.PaymentForm? ==>
      && page.action == cfg.merchantUrl
      && page.orderId == Upper(random)
      && |page.hidden| == 6 && Names(page.hidden) == FORM_FIELD_NAMES
      && page.hidden[0].1 == MerchantIdSetting(cfg)
      && page.hidden[1].1 == page.orderId
      && page.hidden[2].1 == FormatAmount(amountCents)
      && ParseAmount(page.hidden[2].1) == Some(amountCents)
      && page.hidden[3].1 == currencyCode
      && page.hidden[4].1 == base64(description)
      && page.hidden[5].1 == Sign([page.hidden[0].1, page.hidden[1].1, page.hidden[2].1,
                                   page.hidden[3].1, page.hidden[4].1, cfg.secretKey], hash)
  {
    var merchantId := MerchantIdSetting(cfg);
    if Falsy(merchantId) then ReceiverMissing
    else
      var orderId := Upper(random);
      var fields := OutboundFields(merchantId, orderId, FormatAmount(amountCents), currencyCode,
                                   base64(description), cfg.secretKey);
      var hidden := [("m_shop", fields[0]), ("m_orderid", fields[1]), ("m_amount", fields[2]),
                     ("m_curr", fields[3]), ("m_desc", fields[4]), ("m_sign", Sign(fields, hash))];
      AmountRoundTrip(amountCents);
      assert Names(hidden) == FORM_FIELD_NAMES;
      PaymentForm(cfg.merchantUrl, orderId, hidden)
  }

  /** onProjectPayment: the page, and the order id bound to the session only when a form is rendered. */
  method OnProjectPayment(cfg: Config, session: PaymentSession, random: string, amountCents: nat,
                          currencyCode: string, description: string,
                          hash: string -> string, base64: string -> string)
    returns (page: PaymentPage)
    modifies session
    ensures page == ProjectPayment(cfg, random, amountCents, currencyCode, description, hash, base64)
    ensures page.ReceiverMissing? ==> session.uniqueKey == old(session.uniqueKey)
    ensures page.PaymentForm? ==> session.uniqueKey == page.orderId
  {
    var merchantId := MerchantIdSetting(cfg);
    if Falsy(merchantId) {
      return ReceiverMissing;
    }
    var orderId := Upper(random);
    session.SetUniqueKey(orderId);
    page := ProjectPayment(cfg, random, amountCents, currencyCode, description, hash, base64);
  }

  // ------------------------------------------------------- onPaymentNotify

  /** The request parts the handler reads. */
  datatype Request = Request(requestMethod: string, remoteAddr: string, post: Post)

  /** The project properties copied into the result. */
  datatype ProjectInfo = ProjectInfo(id: int, userId: int, funds: int)

  /** The array onPaymentNotify returns (lines 189-197, filled in at 288-302). */
  datatype NotifyResult = NotifyResult(
    project: Option<ProjectInfo>,
    reward: Option<int>,
    transaction: Option<Stored>,
    paymentSession: Option<PaymentSession>,
    serviceProvider: string,
    serviceAlias: string,
    response: string)

  /**
   * Where a notification that passed the address check ended: turned away by
   * the signature gate, dropped by an early return (lines 238, 261, 272), or
   * processed to the end.
   */
  datatype Outcome = Rejected | Dropped | Processed

  /**
   * The response text as written: an early return leaves 'payeer', and every
   * other path ends at line 328, which overwrites the '|error' of line 325.
   * So no response ever signals an error.
   */
  function Response(o: Outcome, orderParam: string): (s: string)
    ensures !EndsWith(s, "|error")
    ensures o.Dropped? ==> s == SERVICE_ALIAS
    ensures !o.Dropped? ==> EndsWith(s, "|success") && s[..|s| - 8] == orderParam
  {
    var s := if o.Dropped? then SERVICE_ALIAS else orderParam + "|success";
    assert !o.Dropped? ==> s[|s| - 6..] == "uccess";
    s
  }

  /** The response the error branch evidently meant to send: '|error' exactly for a rejected notification. */
  function IntendedResponse(o: Outcome, orderParam: string): (s: string)
    ensures EndsWith(s, "|error") <==> o.Rejected?
    ensures o.Rejected? ==> s[..|s| - 6] == orderParam
    ensures !o.Rejected? ==> s == Response(o, orderParam)
  {
    var s := match o
      case Dropped => SERVICE_ALIAS
      case Rejected => orderParam + "|error"
      case Processed => orderParam + "|success";
    assert o.Processed? ==> s[|s| - 6..] == "uccess";
    s
  }

  /** The written code answers a rejected notification exactly as it answers a processed one. */
  lemma RejectedAnsweredAsSuccess(orderParam: string)
    ensures Response(Rejected, orderParam) == Response(Processed, orderParam)
    ensures Response(Rejected, orderParam) != IntendedResponse(Rejected, orderParam)
  {
    assert !EndsWith(Response(Rejected, orderParam), "|error");
  }

  /** The response the handler sends: the written one, or the one the error branch evidently meant. */
  function Reply(asWritten: bool, o: Outcome, orderParam: string): string {
    if asWritten then Response(o, orderParam) else IntendedResponse(o, orderParam)
  }

  /** The address check of lines 173-186: as written, or with the entries trimmed. */
  function AddressAdmitted(asWritten: bool, ipFilter: string, remoteAddr: string): bool {
    if asWritten then IpAllowed(ipFilter, remoteAddr) else IpAllowedTrimmed(ipFilter, remoteAddr)
  }

  /** The gate of line 222: as written, or demanding an operation id. */
  function GateAdmits(asWritten: bool, post: Post, secret: string, hash: string -> string): bool {
    if asWritten then Accepted(post, secret, hash) else AcceptedIntended(post, secret, hash)
  }

  /** The result array as first prepared (lines 189-197), with the given response. */
  function BareResult(response: string): NotifyResult {
    NotifyResult(None, None, None, None, SERVICE_PROVIDER, SERVICE_ALIAS, response)
  }

  /**
   * The part of the result that depends on what happened after the address
   * check: `accepted` is the verdict of the signature gate. Nothing is
   * stored, credited or closed unless the gate admits the notification; a
   * dropped notification is answered 'payeer' and a processed one
   * '|success'. A rejected one is answered '|success' as written
   * (`asWritten`) and '|error' as intended.
   */
  twostate predicate Answered(asWritten: bool, cfg: Config, post: Post, accepted: bool, currencyCode: string,
                              session: PaymentSession, projects: map<int, Project>, table: TransactionTable,
                              date: string, rewardUpdated: bool, new res: NotifyResult, new closeSession: Option<bool>)
    reads table, projects.Values
  {
    && res.serviceProvider == SERVICE_PROVIDER && res.serviceAlias == SERVICE_ALIAS
    && (!accepted ==> RejectedAnswered(asWritten, post, projects, table, res, closeSession))
    && (accepted ==> AcceptedAnswered(cfg, post, currencyCode, session, projects, table, date, rewardUpdated,
                                      res, closeSession))
  }

  /** A notification the gate turns away: nothing changes, and the answer is the bare result. */
  twostate predicate RejectedAnswered(asWritten: bool, post: Post, projects: map<int, Project>, table: TransactionTable,
                                      new res: NotifyResult, new closeSession: Option<bool>)
    reads table, projects.Values
  {
    && table.State() == old(table.State())
    && (forall q :: q in projects.Values ==> q.funds == old(q.funds))
    && closeSession.None?
    && res == BareResult(Reply(asWritten, Rejected, Param(post, "m_orderid")))
  }

  /**
   * A notification the gate admits: dropped when validateData rejects it or
   * its project is unknown, otherwise committed to the table; the project is
   * credited and the session closed exactly when the commit returns data.
   * The responses are the same as written and as intended.
   */
  twostate predicate AcceptedAnswered(cfg: Config, post: Post, currencyCode: string, session: PaymentSession,
                                      projects: map<int, Project>, table: TransactionTable, date: string,
                                      rewardUpdated: bool, new res: NotifyResult, new closeSession: Option<bool>)
    reads table, projects.Values
  {
    var valid := ValidateData(post, currencyCode, cfg.merchantId, session, date);
    if valid.Failure? || valid.value.fields.projectId !in projects then
      && table.State() == old(table.State())
      && (forall q :: q in projects.Values ==> q.funds == old(q.funds))
      && closeSession.None?
      && res == BareResult(IntendedResponse(Dropped, Param(post, "m_orderid")))
    else
      var project := projects[valid.value.fields.projectId];
      && (forall q :: q in projects.Values && q != project ==> q.funds == old(q.funds))
      && Settled(valid.value, project, Param(post, "m_orderid"), session, rewardUpdated, table, res, closeSession)
  }

  /**
   * A valid draft for a known project: the draft, with the project owner as
   * receiver, is committed; when the commit returns data the project is
   * credited with the amount, the session is closed for good and the filled-in
   * result is answered '|success'; otherwise nothing is credited and the
   * bare result is answered 'payeer'.
   */
  twostate predicate Settled(valid: Draft, project: Project, orderParam: string, session: PaymentSession,
                             rewardUpdated: bool, table: TransactionTable,
                             new res: NotifyResult, new closeSession: Option<bool>)
    reads table, project
  {
    var draft := valid.(fields := valid.fields.(receiverId := Some(project.userId)));
    var out := Commit(old(table.State()), draft);
    && table.State() == out.0
    && project.funds == old(project.funds) + (if out.1.Some? then AmountCents(draft.fields.amount) else 0)
    && (out.1.None? ==>
          && closeSession.None?
          && res == BareResult(IntendedResponse(Dropped, orderParam)))
    && (out.1.Some? ==>
          && closeSession == Some(true)
          && res == FillResult(BareResult(SERVICE_ALIAS), out.1.value,
                               ProjectInfo(project.id, project.userId, project.funds), session,
                               rewardUpdated).(response := IntendedResponse(Processed, orderParam)))
  }

  /**
   * onPaymentNotify (lines 157-331). With `asWritten` it is the handler as
   * written; without it, the handler with the three corrections listed under
   * Findings in the README: allow-list entries are trimmed, the gate wants an
   * operation id, and a rejected notification is answered '|error'. The
   * collaborators it consults arrive as parameters: the project currency's
   * code, the payment session found for the order id, the project table, the
   * transaction date, whether updateReward succeeded, and the hash. Besides
   * the result array it reports the argument closePaymentSession was called
   * with, if it was called.
   */
  method OnPaymentNotify(asWritten: bool, cfg: Config, req: Request, currencyCode: string, session: PaymentSession,
                         projects: map<int, Project>, table: TransactionTable, date: string,
                         rewardUpdated: bool, hash: string -> string)
    returns (result: Option<NotifyResult>, closeSession: Option<bool>)
    modifies table, projects.Values
    ensures result.None? <==>
      req.requestMethod != "POST" || !AddressAdmitted(asWritten, cfg.ipFilter, CmdFilter(req.remoteAddr))
    ensures result.None? ==>
      && table.State() == old(table.State())
      && (forall q :: q in projects.Values ==> q.funds == old(q.funds))
      && closeSession.None?
    ensures result.Some? ==>
      Answered(asWritten, cfg, req.post, GateAdmits(asWritten, req.post, cfg.secretKey, hash), currencyCode, session,
               projects, table, date, rewardUpdated, result.value, closeSession)
  {
    closeSession := None;
    if req.requestMethod != "POST" {
      return None, None;
    }
    var remoteAddress := CmdFilter(req.remoteAddr);
    if !AddressAdmitted(asWritten, cfg.ipFilter, remoteAddress) {
      return None, None;
    }
    var res;
    res, closeSession := Answer(asWritten, cfg, req.post, GateAdmits(asWritten, req.post, cfg.secretKey, hash),
                                currencyCode, session, projects, table, date, rewardUpdated);
    result := Some(res);
  }

  /**
   * Lines 189-331: the handler after the address check, given the verdict of
   * the signature gate (line 222). As written, the '|success' of line 328
   * overwrites the '|error' of line 325; as intended it is sent only on the
   * path that does not set '|error'.
   */
  method Answer(asWritten: bool, cfg: Config, post: Post, accepted: bool, currencyCode: string, session: PaymentSession,
                projects: map<int, Project>, table: TransactionTable, date: string, rewardUpdated: bool)
    returns (res: NotifyResult, closeSession: Option<bool>)
    modifies table, projects.Values
    ensures Answered(asWritten, cfg, post, accepted, currencyCode, session, projects, table, date, rewardUpdated,
                     res, closeSession)
  {
    if accepted {
      res, closeSession := ProcessAccepted(cfg, post, currencyCode, session, projects, table, date, rewardUpdated);
    } else {
      closeSession := None;
      res := BareResult(SERVICE_ALIAS);
      res := res.(response := Param(post, "m_orderid") + "|error");
      if asWritten {
        // line 328 runs on this path too and overwrites the error
        res := res.(response := Param(post, "m_orderid") + "|success");
      }
      assert res == BareResult(Reply(asWritten, Rejected, Param(post, "m_orderid")));
    }
  }

  /**
   * Lines 275-302: the result array of a notification processed to the end.
   * The stored transaction goes in with its reward id cleared when the reward
   * update failed; a positive reward id survives only together with the
   * reward it names. Everything else comes from the arguments.
   */
  function FillResult(res0: NotifyResult, txn: Stored, info: ProjectInfo, session: PaymentSession,
                      rewardUpdated: bool): (res: NotifyResult)
    ensures res.transaction.Some? && res.transaction.value.id == txn.id
    ensures res.transaction.value.fields == txn.fields.(rewardId := res.transaction.value.fields.rewardId)
    ensures res.reward.Some? <==> txn.fields.rewardId > 0 && rewardUpdated
    ensures res.transaction.value.fields.rewardId > 0 ==> res.reward == Some(txn.fields.rewardId)
    ensures res.transaction.value.fields.rewardId != txn.fields.rewardId ==>
      res.transaction.value.fields.rewardId == 0 && !rewardUpdated
    ensures res.project == Some(info) && res.paymentSession == Some(session)
    ensures res.serviceProvider == res0.serviceProvider && res.serviceAlias == res0.serviceAlias
    ensures res.response == res0.response
  {
    var rewardId := txn.fields.rewardId;
    var reward := if rewardId > 0 && rewardUpdated then Some(rewardId) else None;
    var kept := if rewardId > 0 && !rewardUpdated then 0 else rewardId;
    res0.(transaction := Some(txn.(fields := txn.fields.(rewardId := kept))),
          project := Some(info), reward := reward, paymentSession := Some(session))
  }

  /**
   * Lines 224-261, the branch the gate admits. An early return (lines 238,
   * 261) hands back the result as first prepared; a valid draft for a known
   * project goes on to Settle.
   */
  method ProcessAccepted(cfg: Config, post: Post, currencyCode: string, session: PaymentSession,
                         projects: map<int, Project>, table: TransactionTable, date: string,
                         rewardUpdated: bool)
    returns (res: NotifyResult, closeSession: Option<bool>)
    modifies table, projects.Values
    ensures res.serviceProvider == SERVICE_PROVIDER && res.serviceAlias == SERVICE_ALIAS
    ensures AcceptedAnswered(cfg, post, currencyCode, session, projects, table, date, rewardUpdated,
                             res, closeSession)
  {
    closeSession := None;
    res := BareResult(SERVICE_ALIAS);
    var valid := ValidateData(post, currencyCode, cfg.merchantId, session, date);
    if valid.Failure? {
      return;
    }
    var projectId := valid.value.fields.projectId;
    if projectId !in projects {
      return;
    }
    res, closeSession := Settle(valid.value, projects[projectId], Param(post, "m_orderid"), session, table,
                                rewardUpdated);
  }

  /**
   * Lines 265-314 and 328: the receiver is set, the transaction stored, and,
   * when storeTransaction returns data, the result filled in, the session
   * closed and the order answered '|success'. A null from storeTransaction
   * returns early (line 272).
   */
  method Settle(valid: Draft, project: Project, orderParam: string, session: PaymentSession,
                table: TransactionTable, rewardUpdated: bool)
    returns (res: NotifyResult, closeSession: Option<bool>)
    modifies table, project
    ensures res.serviceProvider == SERVICE_PROVIDER && res.serviceAlias == SERVICE_ALIAS
    ensures Settled(valid, project, orderParam, session, rewardUpdated, table, res, closeSession)
  {
    closeSession := None;
    res := BareResult(SERVICE_ALIAS);
    var draft := valid.(fields := valid.fields.(receiverId := Some(project.userId)));
    var stored := table.StoreTransaction(draft, project);
    if stored.None? {
      return;
    }

    res := FillResult(res, stored.value, ProjectInfo(project.id, project.userId, project.funds),
                      session, rewardUpdated);
    var removeIntention := stored.value.fields.status == COMPLETED;
    closeSession := Some(removeIntention);
    res := res.(response := orderParam + "|success");
  }
}
