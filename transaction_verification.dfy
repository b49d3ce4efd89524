/**
 * The transaction-verification service: the order id stored by the
 * orchestrator, the service's local vector clock, the credit-card format
 * check, and the two verification handlers.
 *
 * The module globals `order_id_from_orchestrator` and `local_vector_clock`
 * are fields of `TransactionVerificationService`. Each `datetime.now()` call
 * is an integer reading passed in, in call order. A clock dictionary with a
 * missing key is an `Option`; reading the missing key raises, which ends the
 * handler without a response (`Raised`).
 */
module TransactionVerification {
  import opened Wrappers

  // ---------------------------------------------------------------------------
  // Constants

  /** The clock slot of this service (Frontend 0, Orchestrator 1, TransactionVerification 2, ...). */
  const ServerIndex: nat := 2
  const NumServers: nat := 5

  const ServerError := "Server Error. Please retry later."
  const OrderInfoError := "Transaction Invalid. Couldn't verify your order information."
  const UserInfoError := "Transaction Invalid. Couldn't verify your user information."
  const PaymentError := "Transaction Invalid. Couldn't verify your payment details."

  /** A vector of `n` zeros. */
  function Zeros(n: nat): (z: seq<int>)
    ensures |z| == n && forall i :: 0 <= i < n ==> z[i] == 0
  {
    seq(n, _ => 0)
  }

  // ---------------------------------------------------------------------------
  // Vector clocks

  /** The vector clock message of a request. */
  datatype ClockMsg = ClockMsg(vcArray: seq<int>, timestamp: int)

  /** A clock as a dictionary; a field with its default value has no key. */
  datatype ClockDict = ClockDict(vcArray: Option<seq<int>>, timestamp: Option<int>)

  /** `MessageToDict`: an empty array and a zero timestamp leave no key. */
  function MessageToDict(msg: ClockMsg): ClockDict
  {
    ClockDict(if msg.vcArray == [] then None else Some(msg.vcArray),
              if msg.timestamp == 0 then None else Some(msg.timestamp))
  }

  /** The vector after `increment_vector_clock`: one more at ServerIndex, every other slot and the length unchanged. */
  function Incremented(vc: seq<int>): (r: seq<int>)
    requires ServerIndex < |vc|
    ensures |r| == |vc| && r[ServerIndex] == vc[ServerIndex] + 1
    ensures forall i :: 0 <= i < |vc| && i != ServerIndex ==> r[i] == vc[i]
  {
    vc[ServerIndex := vc[ServerIndex] + 1]
  }

  /**
   * `increment_vector_clock`: take the clock's own array (a fresh zero
   * vector of NumServers slots when the clock has none), add one at
   * ServerIndex in place, and stamp it with `now`.
   */
  method IncrementVectorClock(vcArray: array?<int>, now: int) returns (result: array<int>, timestamp: int)
    requires vcArray != null ==> ServerIndex < vcArray.Length
    modifies vcArray
    ensures vcArray != null ==> result == vcArray && result[..] == Incremented(old(vcArray[..]))
    ensures vcArray == null ==> fresh(result) && result[..] == [0, 0, 1, 0, 0]
    ensures timestamp == now
  {
    if vcArray == null {
      result := new int[NumServers](_ => 0);
    } else {
      result := vcArray;
    }
    assert result[..] == if vcArray == null then Zeros(NumServers) else old(vcArray[..]);
    result[ServerIndex] := result[ServerIndex] + 1;
    timestamp := now;
  }

  /** The common shape of the `check_vc_*` tests; None when a clock lacks a key. */
  function CheckVc(request: ClockDict, local: Option<seq<int>>, expectedRequest: seq<int>, expectedLocal: seq<int>, now: int): Option<bool>
  {
    if request.vcArray.None? || local.None? || request.timestamp.None? then None
    else Some(request.vcArray.value == expectedRequest && local.value == expectedLocal && request.timestamp.value < now)
  }

  /** `check_vc_after_orchestrator`. */
  function CheckVcAfterOrchestrator(request: ClockDict, local: Option<seq<int>>, now: int): (r: Option<bool>)
    ensures r.None? <==> request.vcArray.None? || local.None? || request.timestamp.None?
    ensures r == Some(true) <==>
      request.vcArray == Some([0, 1, 0, 0, 0]) && local == Some([0, 0, 0, 0, 0])
      && request.timestamp.Some? && request.timestamp.value < now
  {
    CheckVc(request, local, [0, 1, 0, 0, 0], [0, 0, 0, 0, 0], now)
  }

  /** `check_vc_after_item_verification`. */
  function CheckVcAfterItemVerification(request: ClockDict, local: Option<seq<int>>, now: int): (r: Option<bool>)
    ensures r.None? <==> request.vcArray.None? || local.None? || request.timestamp.None?
    ensures r == Some(true) <==>
      request.vcArray == Some([0, 1, 1, 0, 0]) && local == Some([0, 0, 1, 0, 0])
      && request.timestamp.Some? && request.timestamp.value < now
  {
    CheckVc(request, local, [0, 1, 1, 0, 0], [0, 0, 1, 0, 0], now)
  }

  /** `check_vc_after_usredata_fraud_detection`. */
  function CheckVcAfterUserdataFraudDetection(request: ClockDict, local: Option<seq<int>>, now: int): (r: Option<bool>)
    ensures r.None? <==> request.vcArray.None? || local.None? || request.timestamp.None?
    ensures r == Some(true) <==>
      request.vcArray == Some([0, 1, 2, 1, 0]) && local == Some([0, 0, 2, 0, 0])
      && request.timestamp.Some? && request.timestamp.value < now
  {
    CheckVc(request, local, [0, 1, 2, 1, 0], [0, 0, 2, 0, 0], now)
  }

  // ---------------------------------------------------------------------------
  // Credit-card format

  /** Every character is an ASCII decimal digit. */
  predicate AllDigits(s: string)
  {
    forall i :: 0 <= i < |s| ==> '0' <= s[i] <= '9'
  }

  /** `str.isdigit` on ASCII text: non-empty and all digits. */
  predicate IsDigits(s: string)
  {
    |s| > 0 && AllDigits(s)
  }

  /** `int(s)` of a digit string. */
  function Value(s: string): nat
    requires AllDigits(s)
  {
    if s == [] then 0 else Value(s[..|s| - 1]) * 10 + ((s[|s| - 1] as int) - ('0' as int))
  }

  /** `s.split("/")`. */
  function SplitSlash(s: string): (parts: seq<string>)
    ensures |parts| >= 1
  {
    if s == [] then [""]
    else
      var rest := SplitSlash(s[1..]);
      if s[0] == '/' then [""] + rest else [[s[0]] + rest[0]] + rest[1..]
  }

  /** Splitting yields one more part than there are slashes. */
  lemma {:induction false} SplitSlashCount(s: string)
    ensures |SplitSlash(s)| == multiset(s)['/'] + 1
  {
    if s != [] {
      SplitSlashCount(s[1..]);
      assert s == [s[0]] + s[1..];
      assert multiset(s) == multiset([s[0]]) + multiset(s[1..]);
    }
  }

  /** Text with exactly one slash splits into the text before it and the text after it. */
  lemma {:induction false} SplitAtOnlySlash(mm: string, yy: string)
    requires '/' !in mm && '/' !in yy
    ensures SplitSlash(mm + "/" + yy) == [mm, yy]
  {
    if mm == [] {
      assert mm + "/" + yy == "/" + yy;
      SplitSlashCount(yy);
      assert multiset(yy)['/'] == 0;
      NoSlashSplit(yy);
    } else {
      assert (mm + "/" + yy)[1..] == mm[1..] + "/" + yy;
      SplitAtOnlySlash(mm[1..], yy);
      assert [mm[0]] + mm[1..] == mm;
    }
  }

  /** Text without a slash splits into itself. */
  lemma {:induction false} NoSlashSplit(s: string)
    requires '/' !in s
    ensures SplitSlash(s) == [s]
  {
    if s != [] {
      NoSlashSplit(s[1..]);
      assert [s[0]] + s[1..] == s;
    }
  }

  /** The month and year test of `is_creditcard_valid`. */
  predicate MonthYearValid(mm: string, yy: string)
  {
    (IsDigits(mm) && Value(mm) > 0 && Value(mm) <= 12) && (IsDigits(yy) && Value(yy) > 23 && Value(yy) < 50)
  }

  /**
   * The expiration-date part of `is_creditcard_valid`: no slash is invalid,
   * one slash compares month and year, and more than one slash makes the
   * two-name unpacking of the split raise (None).
   */
  function ExpirationValid(date: string): (r: Option<bool>)
    ensures r.None? <==> multiset(date)['/'] >= 2
    ensures '/' !in date ==> r == Some(false)
  {
    SplitSlashCount(date);
    if '/' !in date then Some(false)
    else
      var parts := SplitSlash(date);
      if |parts| != 2 then None else Some(MonthYearValid(parts[0], parts[1]))
  }

  /** With one slash, the date is valid iff the month is digits in 1..12 and the year digits in 24..49. */
  lemma ExpirationOfMonthYear(mm: string, yy: string)
    requires '/' !in mm && '/' !in yy
    ensures ExpirationValid(mm + "/" + yy)
         == Some(IsDigits(mm) && 1 <= Value(mm) <= 12 && IsDigits(yy) && 24 <= Value(yy) <= 49)
  {
    SplitAtOnlySlash(mm, yy);
    assert (mm + "/" + yy)[|mm|] == '/';
  }

  /** The card details of a request. */
  datatype CreditCard = CreditCard(number: string, expirationDate: string, cvv: string)

  /** `is_creditcard_valid`; None when the expiration date makes it raise. */
  function IsCreditCardValid(card: CreditCard): (r: Option<bool>)
    ensures r.None? <==> multiset(card.expirationDate)['/'] >= 2
    ensures r == Some(true) ==>
      && ExpirationValid(card.expirationDate) == Some(true)
      && IsDigits(card.number) && 10 <= |card.number| <= 19
      && IsDigits(card.cvv) && (|card.cvv| == 3 || |card.cvv| == 4)
    ensures (&& ExpirationValid(card.expirationDate) == Some(true)
             && IsDigits(card.number) && 10 <= |card.number| <= 19
             && IsDigits(card.cvv) && (|card.cvv| == 3 || |card.cvv| == 4)) ==> r == Some(true)
  {
    match ExpirationValid(card.expirationDate)
    case None => None
    case Some(validDate) =>
      Some(validDate && ((|card.number| >= 10 && |card.number| <= 19) && IsDigits(card.number))
           && ((|card.cvv| == 3 || |card.cvv| == 4) && IsDigits(card.cvv)))
  }

  /** The value of a two-digit string. */
  lemma TwoDigitValue(s: string)
    requires |s| == 2 && AllDigits(s)
    ensures Value(s) == ((s[0] as int) - ('0' as int)) * 10 + ((s[1] as int) - ('0' as int))
  {
    var head := s[..1];
    assert s[..|s| - 1] == head;
    assert head[..|head| - 1] == [];
    assert Value(head) == Value([]) * 10 + ((s[0] as int) - ('0' as int));
  }

  /** The expiration date "12/25" is accepted. */
  lemma ExpirationExampleValid()
    ensures ExpirationValid("12/25") == Some(true)
  {
    var mm, yy := "12", "25";
    assert '/' !in mm && '/' !in yy;
    assert mm + "/" + yy == "12/25";
    ExpirationOfMonthYear(mm, yy);
    assert IsDigits(mm) && IsDigits(yy);
    TwoDigitValue(mm);
    TwoDigitValue(yy);
  }

  /** The expiration date "12/20" is rejected: year 20 is before 24. */
  lemma ExpirationExampleExpired()
    ensures ExpirationValid("12/20") == Some(false)
  {
    var mm, yy := "12", "20";
    assert '/' !in mm && '/' !in yy;
    assert mm + "/" + yy == "12/20";
    ExpirationOfMonthYear(mm, yy);
    assert IsDigits(yy);
    TwoDigitValue(yy);
  }

  /** The card number of the end-to-end scenarios is sixteen digits. */
  lemma ExampleNumberDigits()
    ensures IsDigits("3412341234123412") && |"3412341234123412"| == 16
  {
  }

  /** A card of the end-to-end scenarios with year 25 is accepted. */
  lemma CardExampleValid()
    ensures IsCreditCardValid(CreditCard("3412341234123412", "12/25", "123")) == Some(true)
  {
    var card := CreditCard("3412341234123412", "12/25", "123");
    ExpirationExampleValid();
    ExampleNumberDigits();
    assert IsDigits(card.cvv);
    assert IsCreditCardValid(card) == Some(true);
  }

  /** The same card expiring in year 20 is rejected. */
  lemma CardExampleExpired()
    ensures IsCreditCardValid(CreditCard("3412341234123412", "12/20", "123")) == Some(false)
  {
    ExpirationExampleExpired();
  }

  /** A card number made of dashes is rejected. */
  lemma CardExampleDashes()
    ensures IsCreditCardValid(CreditCard("--------", "12/25", "123")) == Some(false)
  {
  }

  // ---------------------------------------------------------------------------
  // Handlers

  datatype User = User(name: string, contact: string)
  datatype Item = Item(name: string, quantity: int)
  datatype ItemAndUserdataRequest = ItemAndUserdataRequest(orderId: string, vectorClock: ClockMsg, user: User, item: Item)
  datatype CardinfoRequest = CardinfoRequest(orderId: string, vectorClock: ClockMsg, creditCard: CreditCard)

  /** The outcome of a handler. */
  datatype Verdict =
    | Rejected(errorMessage: string)                  // isValid = False with this message
    | Forwarded(vcArray: seq<int>, timestamp: int)    // passed on to fraud detection with this clock, whose answer is returned
    | Raised                                          // an exception ends the handler without a response

  /** The `datetime.now()` readings of one VerifyItemAndUserdata call that the outcome depends on, in call order. */
  datatype ItemReadings = ItemReadings(reset: int, afterOrchestrator: int, itemLocal: int, itemRequest: int,
                                       afterItem: int, userLocal: int, userRequest: int)

  /** The `datetime.now()` readings of one VerifyCardinfo call, in call order. */
  datatype CardReadings = CardReadings(afterUserdata: int, cardLocal: int, cardRequest: int)

  /** Each reading is later than the one before. */
  predicate ItemReadingsAscend(t: ItemReadings)
  {
    t.reset < t.afterOrchestrator < t.itemLocal < t.itemRequest < t.afterItem < t.userLocal < t.userRequest
  }

  /** The handler's answer and the local clock (array and timestamp) it leaves. */
  datatype ItemOutcome = ItemOutcome(verdict: Verdict, localClock: seq<int>, localTimestamp: int)

  /** VerifyItemAndUserdata, given the stored order id. */
  function ItemAndUserdataOutcome(stored: string, request: ItemAndUserdataRequest, t: ItemReadings): ItemOutcome
  {
    var local := Zeros(NumServers);
    var clock := MessageToDict(request.vectorClock);
    if request.orderId != stored then ItemOutcome(Rejected(ServerError), local, t.reset)
    else match CheckVcAfterOrchestrator(clock, Some(local), t.afterOrchestrator)
      case None => ItemOutcome(Raised, local, t.reset)
      case Some(false) => ItemOutcome(Rejected(ServerError), local, t.reset)
      case Some(true) =>
        if !(request.item.name != "" && request.item.quantity > 0) then ItemOutcome(Rejected(OrderInfoError), local, t.reset)
        else
          var local1 := Incremented(local);
          var clock1 := ClockDict(Some(Incremented(clock.vcArray.value)), Some(t.itemRequest));
          if CheckVcAfterItemVerification(clock1, Some(local1), t.afterItem) != Some(true) then
            ItemOutcome(Rejected(ServerError), local1, t.itemLocal)
          else if !(request.user.name != "" && request.user.contact != "") then
            ItemOutcome(Rejected(UserInfoError), local1, t.itemLocal)
          else
            ItemOutcome(Forwarded(Incremented(clock1.vcArray.value), t.userRequest), Incremented(local1), t.userLocal)
  }

  /** The outcomes of VerifyItemAndUserdata, case by case. */
  lemma ItemAndUserdataCases(stored: string, request: ItemAndUserdataRequest, t: ItemReadings)
    // the first failing check answers, with its own message, and later checks do not run
    ensures var r := ItemAndUserdataOutcome(stored, request, t);
      request.orderId != stored ==> r == ItemOutcome(Rejected(ServerError), [0, 0, 0, 0, 0], t.reset)
    ensures var r := ItemAndUserdataOutcome(stored, request, t);
      r.verdict.Raised? <==>
        request.orderId == stored && (request.vectorClock.vcArray == [] || request.vectorClock.timestamp == 0)
    ensures var r := ItemAndUserdataOutcome(stored, request, t);
      r.verdict == Rejected(OrderInfoError) <==>
        && request.orderId == stored
        && CheckVcAfterOrchestrator(MessageToDict(request.vectorClock), Some([0, 0, 0, 0, 0]), t.afterOrchestrator) == Some(true)
        && !(request.item.name != "" && request.item.quantity > 0)
    // a failed order-id or vector-clock check answers with the server error
    ensures var r := ItemAndUserdataOutcome(stored, request, t);
      r.verdict == Rejected(ServerError) <==>
        || request.orderId != stored
        || CheckVcAfterOrchestrator(MessageToDict(request.vectorClock), Some([0, 0, 0, 0, 0]), t.afterOrchestrator) == Some(false)
        || (&& CheckVcAfterOrchestrator(MessageToDict(request.vectorClock), Some([0, 0, 0, 0, 0]), t.afterOrchestrator) == Some(true)
            && request.item.name != "" && request.item.quantity > 0
            && !(t.itemRequest < t.afterItem))
    ensures var r := ItemAndUserdataOutcome(stored, request, t);
      r.verdict == Rejected(UserInfoError) <==>
        && request.orderId == stored
        && request.vectorClock.vcArray == [0, 1, 0, 0, 0]
        && request.vectorClock.timestamp != 0 && request.vectorClock.timestamp < t.afterOrchestrator
        && request.item.name != "" && request.item.quantity > 0
        && t.itemRequest < t.afterItem
        && !(request.user.name != "" && request.user.contact != "")
    ensures var r := ItemAndUserdataOutcome(stored, request, t);
      r.verdict == Rejected(UserInfoError) ==> r.localClock == [0, 0, 1, 0, 0]
    ensures var r := ItemAndUserdataOutcome(stored, request, t);
      r.verdict.Rejected? ==> r.verdict.errorMessage in {ServerError, OrderInfoError, UserInfoError}
    ensures var r := ItemAndUserdataOutcome(stored, request, t);
      r.verdict.Forwarded? <==>
        && request.orderId == stored
        && request.vectorClock.vcArray == [0, 1, 0, 0, 0]
        && request.vectorClock.timestamp != 0 && request.vectorClock.timestamp < t.afterOrchestrator
        && request.item.name != "" && request.item.quantity > 0
        && t.itemRequest < t.afterItem
        && request.user.name != "" && request.user.contact != ""
    // after both checks pass, the local clock is [0,0,2,0,0] and the request clock [0,1,2,0,0]
    ensures var r := ItemAndUserdataOutcome(stored, request, t);
      r.verdict.Forwarded? ==>
        r.verdict == Forwarded([0, 1, 2, 0, 0], t.userRequest) && r.localClock == [0, 0, 2, 0, 0] && r.localTimestamp == t.userLocal
  {
  }

  /** The handler's answer and the local clock array it leaves (None while the clock dictionary is still empty). */
  datatype CardOutcome = CardOutcome(verdict: Verdict, localClock: Option<seq<int>>)

  /** VerifyCardinfo, given the stored order id and the local clock array. */
  function CardinfoOutcome(stored: string, local: Option<seq<int>>, request: CardinfoRequest, t: CardReadings): CardOutcome
  {
    var clock := MessageToDict(request.vectorClock);
    if request.orderId != stored then CardOutcome(Rejected(ServerError), local)
    else match CheckVcAfterUserdataFraudDetection(clock, local, t.afterUserdata)
      case None => CardOutcome(Raised, local)
      case Some(false) => CardOutcome(Rejected(ServerError), local)
      case Some(true) =>
        match IsCreditCardValid(request.creditCard)
        case None => CardOutcome(Raised, local)
        case Some(false) => CardOutcome(Rejected(PaymentError), local)
        case Some(true) =>
          CardOutcome(Forwarded(Incremented(clock.vcArray.value), t.cardRequest), Some(Incremented(local.value)))
  }

  /** The outcomes of VerifyCardinfo, case by case. */
  lemma CardinfoCases(stored: string, local: Option<seq<int>>, request: CardinfoRequest, t: CardReadings)
    ensures var r := CardinfoOutcome(stored, local, request, t);
      r.verdict.Forwarded? <==>
        && request.orderId == stored
        && request.vectorClock.vcArray == [0, 1, 2, 1, 0]
        && request.vectorClock.timestamp != 0 && request.vectorClock.timestamp < t.afterUserdata
        && local == Some([0, 0, 2, 0, 0])
        && IsCreditCardValid(request.creditCard) == Some(true)
    // on a valid card the local clock becomes [0,0,3,0,0]; otherwise it is left as it was
    ensures var r := CardinfoOutcome(stored, local, request, t);
      r.verdict.Forwarded? ==>
        r.verdict == Forwarded([0, 1, 3, 1, 0], t.cardRequest) && r.localClock == Some([0, 0, 3, 0, 0])
    ensures var r := CardinfoOutcome(stored, local, request, t);
      !r.verdict.Forwarded? ==> r.localClock == local
    // a missing clock key, or an expiration date with two or more slashes, raises
    ensures var r := CardinfoOutcome(stored, local, request, t);
      r.verdict.Raised? <==>
        && request.orderId == stored
        && (|| request.vectorClock.vcArray == [] || local.None? || request.vectorClock.timestamp == 0
            || (&& CheckVcAfterUserdataFraudDetection(MessageToDict(request.vectorClock), local, t.afterUserdata) == Some(true)
                && multiset(request.creditCard.expirationDate)['/'] >= 2))
    ensures var r := CardinfoOutcome(stored, local, request, t);
      r.verdict == Rejected(PaymentError) <==>
        && request.orderId == stored
        && CheckVcAfterUserdataFraudDetection(MessageToDict(request.vectorClock), local, t.afterUserdata) == Some(true)
        && IsCreditCardValid(request.creditCard) == Some(false)
    // a wrong order id or a failed vector-clock check answers with the server error
    ensures var r := CardinfoOutcome(stored, local, request, t);
      r.verdict == Rejected(ServerError) <==>
        || request.orderId != stored
        || CheckVcAfterUserdataFraudDetection(MessageToDict(request.vectorClock), local, t.afterUserdata) == Some(false)
    ensures var r := CardinfoOutcome(stored, local, request, t);
      r.verdict.Rejected? ==> r.verdict.errorMessage in {ServerError, PaymentError}
  {
    assert Incremented([0, 1, 2, 1, 0]) == [0, 1, 3, 1, 0];
    assert Incremented([0, 0, 2, 0, 0]) == [0, 0, 3, 0, 0];
  }

  /**
   * The intended flow: the order id is stored, item and user data pass with
   * the orchestrator's clock [0,1,0,0,0], fraud detection sends the clock on
   * as [0,1,2,1,0], and a valid card leaves the local clock at [0,0,3,0,0].
   */
  lemma VerificationFlow(orderId: string, itemRequest: ItemAndUserdataRequest, ti: ItemReadings,
                         cardRequest: CardinfoRequest, tc: CardReadings)
    requires itemRequest.orderId == orderId && cardRequest.orderId == orderId
    requires itemRequest.vectorClock.vcArray == [0, 1, 0, 0, 0]
    requires 0 != itemRequest.vectorClock.timestamp < ti.reset && ItemReadingsAscend(ti)
    requires itemRequest.item.name != "" && itemRequest.item.quantity > 0
    requires itemRequest.user.name != "" && itemRequest.user.contact != ""
    requires cardRequest.vectorClock.vcArray == [0, 1, 2, 1, 0]
    requires 0 != cardRequest.vectorClock.timestamp < tc.afterUserdata
    requires IsCreditCardValid(cardRequest.creditCard) == Some(true)
    ensures var item := ItemAndUserdataOutcome(orderId, itemRequest, ti);
      && item.verdict == Forwarded([0, 1, 2, 0, 0], ti.userRequest)
      && CardinfoOutcome(orderId, Some(item.localClock), cardRequest, tc)
         == CardOutcome(Forwarded([0, 1, 3, 1, 0], tc.cardRequest), Some([0, 0, 3, 0, 0]))
  {
    ItemAndUserdataCases(orderId, itemRequest, ti);
    var item := ItemAndUserdataOutcome(orderId, itemRequest, ti);
    CardinfoCases(orderId, Some(item.localClock), cardRequest, tc);
  }

  /**
   * The clock checks enforce the order: card details are forwarded only
   * after the item and user data of the same order were forwarded.
   */
  lemma CardinfoNeedsItemAndUserdata(stored: string, itemRequest: ItemAndUserdataRequest, ti: ItemReadings,
                                     cardRequest: CardinfoRequest, tc: CardReadings)
    ensures var item := ItemAndUserdataOutcome(stored, itemRequest, ti);
      CardinfoOutcome(stored, Some(item.localClock), cardRequest, tc).verdict.Forwarded? ==> item.verdict.Forwarded?
  {
  }

  // ---------------------------------------------------------------------------
  // The service state

  class TransactionVerificationService {
    /** `order_id_from_orchestrator`. */
    var orderIdFromOrchestrator: string
    /** `local_vector_clock["vcArray"]`; null while `local_vector_clock` is still the empty dictionary. */
    var localClock: array?<int>
    /** `local_vector_clock["timestamp"]`. */
    var localTimestamp: int

    /** The module globals at start: no order id and an empty clock dictionary. */
    constructor ()
      ensures orderIdFromOrchestrator == "" && localClock == null
    {
      orderIdFromOrchestrator := "";
      localClock := null;
      localTimestamp := 0;
    }

    /** `check_order_id`. */
    function CheckOrderId(orderId: string): (valid: bool)
      reads this
      ensures valid <==> orderId == orderIdFromOrchestrator
    {
      orderIdFromOrchestrator == orderId
    }

    /** `StorageOrderId`: remember the orchestrator's order id and answer valid. */
    method StorageOrderId(orderId: string) returns (isValid: bool)
      modifies this
      ensures isValid && orderIdFromOrchestrator == orderId
      ensures forall id :: CheckOrderId(id) <==> id == orderId
      ensures localClock == old(localClock) && localTimestamp == old(localTimestamp)
    {
      orderIdFromOrchestrator := orderId;
      isValid := true;
    }

    /** `VerifyItemAndUserdata`. */
    method VerifyItemAndUserdata(request: ItemAndUserdataRequest, t: ItemReadings) returns (verdict: Verdict)
      modifies this
      ensures orderIdFromOrchestrator == old(orderIdFromOrchestrator)
      ensures localClock != null && fresh(localClock)
      ensures var r := ItemAndUserdataOutcome(orderIdFromOrchestrator, request, t);
        verdict == r.verdict && localClock[..] == r.localClock && localTimestamp == r.localTimestamp
    {
      var local := new int[NumServers](_ => 0);
      assert local[..] == Zeros(NumServers);
      localClock, localTimestamp := local, t.reset;
      var clock := MessageToDict(request.vectorClock);
      if !CheckOrderId(request.orderId) {
        verdict := Rejected(ServerError);
        return;
      }
      var afterOrchestrator := CheckVcAfterOrchestrator(clock, Some(local[..]), t.afterOrchestrator);
      if afterOrchestrator.None? {
        verdict := Raised;
        return;
      }
      if !afterOrchestrator.value {
        verdict := Rejected(ServerError);
        return;
      }
      if !(request.item.name != "" && request.item.quantity > 0) {
        verdict := Rejected(OrderInfoError);
        return;
      }
      var requestVc := new int[|clock.vcArray.value|](i requires 0 <= i < |clock.vcArray.value| => clock.vcArray.value[i]);
      assert requestVc[..] == clock.vcArray.value;
      local, localTimestamp := IncrementVectorClock(local, t.itemLocal);
      var requestTimestamp;
      requestVc, requestTimestamp := IncrementVectorClock(requestVc, t.itemRequest);
      assert local[..] == Incremented(Zeros(NumServers)) && requestVc[..] == Incremented(clock.vcArray.value);
      var afterItem := CheckVcAfterItemVerification(ClockDict(Some(requestVc[..]), Some(requestTimestamp)), Some(local[..]), t.afterItem);
      if afterItem != Some(true) {
        verdict := Rejected(ServerError);
        return;
      }
      if !(request.user.name != "" && request.user.contact != "") {
        verdict := Rejected(UserInfoError);
        return;
      }
      local, localTimestamp := IncrementVectorClock(local, t.userLocal);
      requestVc, requestTimestamp := IncrementVectorClock(requestVc, t.userRequest);
      verdict := Forwarded(requestVc[..], requestTimestamp);
    }

    /** `VerifyCardinfo`. */
    method VerifyCardinfo(request: CardinfoRequest, t: CardReadings) returns (verdict: Verdict)
      modifies this, localClock
      ensures orderIdFromOrchestrator == old(orderIdFromOrchestrator) && localClock == old(localClock)
      ensures var r := CardinfoOutcome(orderIdFromOrchestrator, if localClock == null then None else Some(old(localClock[..])), request, t);
        && verdict == r.verdict
        && (localClock != null ==> Some(localClock[..]) == r.localClock)
      ensures verdict.Forwarded? ==> localTimestamp == t.cardLocal
      ensures !verdict.Forwarded? ==> localTimestamp == old(localTimestamp)
    {
      var clock := MessageToDict(request.vectorClock);
      if !CheckOrderId(request.orderId) {
        verdict := Rejected(ServerError);
        return;
      }
      var local := if localClock == null then None else Some(localClock[..]);
      var afterUserdata := CheckVcAfterUserdataFraudDetection(clock, local, t.afterUserdata);
      if afterUserdata.None? {
        verdict := Raised;
        return;
      }
      if !afterUserdata.value {
        verdict := Rejected(ServerError);
        return;
      }
      var cardValid := IsCreditCardValid(request.creditCard);
      if cardValid.None? {
        verdict := Raised;
        return;
      }
      if !cardValid.value {
        verdict := Rejected(PaymentError);
        return;
      }
      var requestVc := new int[|clock.vcArray.value|](i requires 0 <= i < |clock.vcArray.value| => clock.vcArray.value[i]);
      var _, stamp := IncrementVectorClock(localClock, t.cardLocal);
      localTimestamp := stamp;
      var requestTimestamp;
      requestVc, requestTimestamp := IncrementVectorClock(requestVc, t.cardRequest);
      verdict := Forwarded(requestVc[..], requestTimestamp);
    }
  }
}
