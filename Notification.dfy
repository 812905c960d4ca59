/**
 * The checks an inbound Payeer notification passes through before anything
 * is stored: the remote-address allow-list, the signature and status gate of
 * onPaymentNotify, and validateData, which turns the POST fields into a
 * transaction draft or rejects them.
 */
module Notification {
  import opened Wrappers
  import opened Text
  import opened Signing
  import opened Transaction
  import opened Session

  /** The raw POST fields of the notification. */
  type Post = map<string, string>

  /** $_POST[key] in a string context: a missing key is null, which PHP renders as "". */
  function Field(post: Post, key: string): string {
    if key in post then post[key] else ""
  }

  /**
   * $input->post->get(key): the field through Joomla's default 'cmd' filter.
   * A missing field reads as "", and a field that is already clean reads as
   * posted.
   */
  function Param(post: Post, key: string): (v: string)
    ensures IsCmdClean(v)
    ensures key !in post ==> v == ""
    ensures key in post && IsCmdClean(post[key]) ==> v == post[key]
  {
    if key in post && IsCmdClean(post[key]) then CmdFilterOfClean(post[key]); CmdFilter(Field(post, key))
    else CmdFilter(Field(post, key))
  }

  // ------------------------------------------------------ remote address

  /** The configured allow-list: the trimmed setting exploded on ',', entries left as they are. */
  function AllowList(ipFilter: string): (entries: seq<string>)
    ensures Trim(ipFilter) == "" <==> entries == []
    ensures entries != [] ==> Join(entries, ',') == Trim(ipFilter)
    ensures forall i :: 0 <= i < |entries| ==> ',' !in entries[i]
  {
    var f := Trim(ipFilter);
    if f == "" then [] else (JoinSplit(f, ','); Split(f, ','))
  }

  /**
   * Lines 173-186 as written: an empty list admits everybody; otherwise the
   * address must equal, character for character, the text between two
   * commas (or an end) of the trimmed setting.
   */
  function IpAllowed(ipFilter: string, remoteAddr: string): (ok: bool)
    ensures ok <==> Trim(ipFilter) == "" || IsPiece(Trim(ipFilter), ',', remoteAddr)
  {
    var entries := AllowList(ipFilter);
    if |entries| == 0 then true
    else JoinPieces(entries, ',', remoteAddr); remoteAddr in entries
  }

  /**
   * array_walk discards what trim returns, so an entry written after ", "
   * keeps its leading space and never equals an address: the filter
   * "10.0.0.1, 10.0.0.2" turns 10.0.0.2 away.
   */
  lemma SpacedAllowListEntryRejected(first: string, addr: string)
    requires first != "" && addr != "" && IsTrimmed(first) && IsTrimmed(addr)
    requires ',' !in first && ',' !in addr && first != addr
    ensures !IpAllowed(first + ", " + addr, addr)
  {
    SpacedAllowList(first, addr);
    var entries := AllowList(first + ", " + addr);
    assert addr != " " + addr;
    assert addr !in entries;
  }

  /** The entries of the filter "first, addr": the second keeps its leading space. */
  lemma SpacedAllowList(first: string, addr: string)
    requires first != "" && addr != "" && IsTrimmed(first) && IsTrimmed(addr)
    requires ',' !in first && ',' !in addr
    ensures AllowList(first + ", " + addr) == [first, " " + addr]
  {
    var f := first + ", " + addr;
    assert f[0] == first[0] && f[|f| - 1] == addr[|addr| - 1];
    TrimOfTrimmed(f);
    var entries := [first, " " + addr];
    assert Join(entries, ',') == f;
    assert ',' !in " " + addr;
    SplitJoin(entries, ',');
  }

  /** Some piece of s between separators (or an end) trims to x. */
  predicate IsTrimmedPiece(s: string, sep: char, x: string) {
    exists i: nat, j: nat | i <= j <= |s| :: PieceAt(s, sep, i, j) && Trim(s[i..j]) == x
  }

  /**
   * The allow-list the array_walk evidently meant: every entry trimmed before
   * the comparison, so the address must equal the trimmed text between two
   * commas (or an end) of the setting.
   */
  function IpAllowedTrimmed(ipFilter: string, remoteAddr: string): (ok: bool)
    ensures ok <==> Trim(ipFilter) == "" || IsTrimmedPiece(Trim(ipFilter), ',', remoteAddr)
  {
    var entries := AllowList(ipFilter);
    if |entries| == 0 then true
    else TrimmedEntries(ipFilter, remoteAddr); exists i :: 0 <= i < |entries| && Trim(entries[i]) == remoteAddr
  }

  lemma TrimmedEntries(ipFilter: string, remoteAddr: string)
    requires Trim(ipFilter) != ""
    ensures (exists k :: 0 <= k < |AllowList(ipFilter)| && Trim(AllowList(ipFilter)[k]) == remoteAddr)
            <==> IsTrimmedPiece(Trim(ipFilter), ',', remoteAddr)
  {
    var f := Trim(ipFilter);
    var entries := AllowList(ipFilter);
    if k :| 0 <= k < |entries| && Trim(entries[k]) == remoteAddr {
      JoinPieces(entries, ',', entries[k]);
      var i: nat, j: nat :| i <= j <= |f| && PieceAt(f, ',', i, j) && f[i..j] == entries[k];
      assert Trim(f[i..j]) == remoteAddr;
    }
    if IsTrimmedPiece(f, ',', remoteAddr) {
      var i: nat, j: nat :| i <= j <= |f| && PieceAt(f, ',', i, j) && Trim(f[i..j]) == remoteAddr;
      assert IsPiece(f, ',', f[i..j]);
      JoinPieces(entries, ',', f[i..j]);
      var k :| 0 <= k < |entries| && entries[k] == f[i..j];
      assert Trim(entries[k]) == remoteAddr;
    }
  }

  /** The corrected filter differs from the written one only where an entry carries whitespace. */
  lemma TrimmedAllowListAgreesOnCleanEntries(ipFilter: string, remoteAddr: string)
    requires forall i :: 0 <= i < |AllowList(ipFilter)| ==> IsTrimmed(AllowList(ipFilter)[i])
    ensures IpAllowedTrimmed(ipFilter, remoteAddr) <==> IpAllowed(ipFilter, remoteAddr)
  {
    var entries := AllowList(ipFilter);
    forall i | 0 <= i < |entries| ensures Trim(entries[i]) == entries[i] {
      TrimOfTrimmed(entries[i]);
    }
  }

  /** The corrected filter admits the address of the filter "first, addr" that the written one turns away. */
  lemma SpacedAllowListEntryAdmittedWhenTrimmed(first: string, addr: string)
    requires first != "" && addr != "" && IsTrimmed(first) && IsTrimmed(addr)
    requires ',' !in first && ',' !in addr
    ensures IpAllowedTrimmed(first + ", " + addr, addr)
  {
    SpacedAllowList(first, addr);
    var entries := AllowList(first + ", " + addr);
    TrimDropsLeadingSpace(addr);
    assert Trim(entries[1]) == addr;
  }

  lemma TrimDropsLeadingSpace(addr: string)
    requires addr != "" && IsTrimmed(addr)
    ensures Trim(" " + addr) == addr
  {
    var spaced := " " + addr;
    assert spaced[1..] == addr;
    assert TrimLeft(addr) == addr;
    assert TrimLeft(spaced) == addr;
    assert TrimRight(addr) == addr;
  }

  // --------------------------------------------------- signature and status

  /** The inbound hashed list (lines 202-214): ten notification fields in protocol order, then the secret. */
  function NotifyHashFields(post: Post, secret: string): seq<string> {
    [Field(post, "m_operation_id"), Field(post, "m_operation_ps"), Field(post, "m_operation_date"),
     Field(post, "m_operation_pay_date"), Field(post, "m_shop"), Field(post, "m_orderid"),
     Field(post, "m_amount"), Field(post, "m_curr"), Field(post, "m_desc"), Field(post, "m_status"),
     secret]
  }

  /** $signHash (lines 199-217): the expected signature, left "" unless m_operation_id and m_sign are both posted. */
  function ExpectedSign(post: Post, secret: string, hash: string -> string): string {
    if "m_operation_id" in post && "m_sign" in post then Sign(NotifyHashFields(post, secret), hash) else ""
  }

  /**
   * The condition of line 222, as written. It demands a posted m_sign and the
   * status 'success'; the signature has to match only when an operation id is
   * posted, and without one the empty m_sign is what passes.
   */
  function Accepted(post: Post, secret: string, hash: string -> string): (ok: bool)
    ensures ok ==> "m_sign" in post && Param(post, "m_status") == "success"
    ensures ok && "m_operation_id" in post ==> post["m_sign"] == Sign(NotifyHashFields(post, secret), hash)
    ensures ok && "m_operation_id" !in post ==> post["m_sign"] == ""
    ensures ("m_sign" in post && post["m_sign"] == ExpectedSign(post, secret, hash)
             && Param(post, "m_status") == "success") ==> ok
  {
    && "m_sign" in post
    && post["m_sign"] == ExpectedSign(post, secret, hash)
    && Param(post, "m_status") == "success"
  }

  lemma SuccessIsClean()
    ensures CmdFilter("success") == "success"
  {
    CmdFilterOfClean("success");
  }

  /**
   * With an operation id posted, the gate admits a notification exactly when
   * m_sign is the signature over the inbound list and the status reads 'success'.
   */
  lemma SignedNotificationGate(post: Post, secret: string, hash: string -> string)
    requires "m_operation_id" in post && "m_sign" in post
    requires Field(post, "m_status") == "success"
    ensures Accepted(post, secret, hash) <==> post["m_sign"] == Sign(NotifyHashFields(post, secret), hash)
  {
    SuccessIsClean();
  }

  /**
   * As written, a notification without m_operation_id and with an empty
   * m_sign passes the gate: $signHash stays '' and '' === ''.
   */
  lemma UnsignedNotificationAccepted(secret: string, hash: string -> string, orderId: string)
    ensures Accepted(map["m_sign" := "", "m_status" := "success", "m_orderid" := orderId], secret, hash)
    ensures !AcceptedIntended(map["m_sign" := "", "m_status" := "success", "m_orderid" := orderId], secret, hash)
  {
    var post := map["m_sign" := "", "m_status" := "success", "m_orderid" := orderId];
    SuccessIsClean();
    assert Param(post, "m_status") == "success";
    assert "m_operation_id" !in post && ExpectedSign(post, secret, hash) == "";
  }

  /** The gate as evidently intended: both keys posted, the signature matching, the status 'success'. */
  function AcceptedIntended(post: Post, secret: string, hash: string -> string): (ok: bool)
    ensures ok <==> Accepted(post, secret, hash) && "m_operation_id" in post
  {
    && "m_operation_id" in post
    && "m_sign" in post
    && post["m_sign"] == Sign(NotifyHashFields(post, secret), hash)
    && Param(post, "m_status") == "success"
  }

  /** Under the intended gate, with a hash that always yields 64 hex digits, an empty or forged-short m_sign never passes. */
  lemma IntendedGateNeedsFullSignature(post: Post, secret: string, hash: string -> string)
    requires forall s :: |hash(s)| == 64
    requires AcceptedIntended(post, secret, hash)
    ensures |post["m_sign"]| == 64
  {
    assert |hash(Join(NotifyHashFields(post, secret), ':'))| == 64;
  }

  // ------------------------------------------------------------ validateData

  /** Why validateData returned null; each stands for the message it logs. */
  datatype Rejection = InvalidTransactionData | InvalidCurrency | InvalidReceiver

  /** The notification fields kept as extra data (the extraDataKeys of lines 34-37). */
  const EXTRA_DATA_KEYS: set<string> := {
    "m_desc", "m_orderid", "m_amount", "m_curr", "m_status", "m_shop", "m_sign",
    "m_operation_id", "m_operation_ps", "m_operation_date", "m_operation_pay_date", "summa_out", "transfer_id"
  }

  /** prepareExtraData: the posted fields among the extra-data keys. */
  function ExtraData(post: Post): (extra: map<string, string>)
    ensures extra.Keys == post.Keys * EXTRA_DATA_KEYS
    ensures forall k :: k in extra ==> extra[k] == post[k]
  {
    map k | k in post && k in EXTRA_DATA_KEYS :: post[k]
  }

  /** Lines 390-391: 'success' in any letter case completes, anything else fails. */
  function NormalizeStatus(raw: string): (status: string)
    ensures status == COMPLETED || status == FAIL
    ensures status == COMPLETED <==> Lower(raw) == "success"
  {
    if Lower(raw) == "success" then COMPLETED else FAIL
  }

  /** The status reads the same whatever letter case the payment system sends. */
  lemma StatusIgnoresCase(raw: string)
    ensures NormalizeStatus(Upper(raw)) == NormalizeStatus(raw)
  {
    LowerOfUpper(raw);
  }

  /** PHP's `!$s` on a string. */
  predicate Falsy(s: string) {
    s == "" || s == "0"
  }

  /**
   * validateData (lines 385-447). The draft takes owner, project and reward
   * from the session, never from the payload; the rejections come in a fixed
   * order: missing project or transaction id, then currency, then receiver.
   * `date` is the SQL date the payload's payment_date converts to;
   * `merchantId` is the merchant_id setting, None when it was never saved
   * (null, which no posted string is identical to).
   */
  function ValidateData(post: Post, currencyCode: string, merchantId: Option<string>,
                        session: PaymentSession, date: string): (r: Result<Draft, Rejection>)
    ensures r == Failure(InvalidTransactionData) <==> session.projectId == 0 || Falsy(Field(post, "m_orderid"))
    ensures r == Failure(InvalidCurrency) <==>
      session.projectId != 0 && !Falsy(Field(post, "m_orderid")) && Field(post, "m_curr") != currencyCode
    ensures r == Failure(InvalidReceiver) <==>
      session.projectId != 0 && !Falsy(Field(post, "m_orderid")) && Field(post, "m_curr") == currencyCode
      && (merchantId.None? || Field(post, "m_shop") != merchantId.value)
    ensures r.Success? ==>
      var f := r.value.fields;
      && f.investorId == session.userId
      && f.projectId == session.projectId != 0
      && f.rewardId == (if session.anonymous then 0 else session.rewardId)
      && "m_orderid" in post && f.txnId == post["m_orderid"] && !Falsy(f.txnId)
      && f.currency == currencyCode
      && merchantId == Some(Field(post, "m_shop"))
      && f.amount == Field(post, "m_amount")
      && f.status == NormalizeStatus(Field(post, "m_status"))
      && f.serviceProvider == SERVICE_PROVIDER && f.serviceAlias == SERVICE_ALIAS
      && f.date == date && f.receiverId.None?
      && r.value.extraData == ExtraData(post)
  {
    var fields := TxnFields(
      investorId := session.userId,
      projectId := session.projectId,
      rewardId := if session.anonymous then 0 else session.rewardId,
      serviceProvider := SERVICE_PROVIDER,
      serviceAlias := SERVICE_ALIAS,
      txnId := Field(post, "m_orderid"),
      amount := Field(post, "m_amount"),
      currency := Field(post, "m_curr"),
      status := NormalizeStatus(Field(post, "m_status")),
      date := date,
      receiverId := None);
    if fields.projectId == 0 || Falsy(fields.txnId) then Failure(InvalidTransactionData)
    else if fields.currency != currencyCode then Failure(InvalidCurrency)
    else if merchantId.None? || Field(post, "m_shop") != merchantId.value then Failure(InvalidReceiver)
    else Success(Draft(fields, ExtraData(post)))
  }

  /** A project_id posted in the payload changes nothing: the project always comes from the session. */
  lemma PayloadCannotChooseProject(post: Post, currencyCode: string, merchantId: Option<string>,
                                   session: PaymentSession, date: string, forged: string)
    ensures ValidateData(post["project_id" := forged], currencyCode, merchantId, session, date)
         == ValidateData(post, currencyCode, merchantId, session, date)
  {
    var post' := post["project_id" := forged];
    assert "project_id" !in EXTRA_DATA_KEYS;
    assert ExtraData(post') == ExtraData(post);
  }
}
