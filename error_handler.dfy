/** Classification of wallet and contract errors into user-facing
    notices, and the CSS class names used to display them
    (packages/frontend/src/lib/errorHandler.ts). */
module ErrorHandler {
  import opened Basics
  import opened Text

  /** `error.code`: absent, a number (an EIP-1193 provider code) or a
      string (an ethers/viem error code). */
  datatype Code = NoCode | NumCode(n: int) | StrCode(s: string)

  /** The fields of a `Web3Error` the classifier reads. `message` is the
      `Error` message and always present (possibly empty). */
  datatype Web3Error = Web3Error(
    message: string,
    shortMessage: Option<string>,
    reason: Option<string>,
    code: Code)

  datatype ErrorType = User | Network | Contract | Unknown

  datatype ErrorInfo = ErrorInfo(
    title: string,
    message: string,
    suggestion: string,
    kind: ErrorType,
    icon: string)

  const UNKNOWN_TEXT := "未知错误"

  /** An optional string is truthy when present and non-empty. */
  predicate Truthy(o: Option<string>) {
    o.Some? && o.value != ""
  }

  /** `error.message || error.shortMessage || error.reason || '未知错误'`:
      the first non-empty text, never empty itself. */
  function MessageOf(e: Web3Error): (r: string)
    ensures r != ""
    ensures e.message != "" ==> r == e.message
    ensures e.message == "" && Truthy(e.shortMessage) ==> r == e.shortMessage.value
    ensures e.message == "" && !Truthy(e.shortMessage) && Truthy(e.reason) ==> r == e.reason.value
    ensures e.message == "" && !Truthy(e.shortMessage) && !Truthy(e.reason) ==> r == UNKNOWN_TEXT
  {
    if e.message != "" then e.message
    else if Truthy(e.shortMessage) then e.shortMessage.value
    else if Truthy(e.reason) then e.reason.value
    else UNKNOWN_TEXT
  }

  /** Some phrase of `phrases` occurs in `s`. */
  function MentionsAny(s: string, phrases: seq<string>): bool {
    if phrases == [] then false
    else Contains(s, phrases[0]) || MentionsAny(s, phrases[1..])
  }

  lemma {:induction false} MentionsAnyIff(s: string, phrases: seq<string>)
    ensures MentionsAny(s, phrases) <==> exists i :: 0 <= i < |phrases| && Contains(s, phrases[i])
  {
    if phrases != [] {
      MentionsAnyIff(s, phrases[1..]);
      if MentionsAny(s, phrases[1..]) {
        var i :| 0 <= i < |phrases[1..]| && Contains(s, phrases[1..][i]);
        assert Contains(s, phrases[i + 1]);
      }
      forall i | 1 <= i < |phrases| && Contains(s, phrases[i])
        ensures MentionsAny(s, phrases[1..])
      {
        assert phrases[1..][i - 1] == phrases[i];
      }
    }
  }

  const REJECTION_PHRASES := ["User rejected", "user rejected", "User denied", "user denied"]
  const FUNDS_PHRASES := ["insufficient funds", "insufficient balance", "out of gas"]
  const NETWORK_PHRASES := ["network", "connection", "timeout"]
  const REVERT_PHRASES := ["execution reverted", "revert", "require"]
  const NOT_CONNECTED_PHRASES := ["not connected", "no provider", "wallet not connected"]

  // The five guards of the classifier, in the order they are tried.

  predicate IsRejection(e: Web3Error) {
    MentionsAny(MessageOf(e), REJECTION_PHRASES)
    || e.code == NumCode(4001) || e.code == StrCode("ACTION_REJECTED")
  }

  predicate IsFundsShortage(e: Web3Error) {
    MentionsAny(MessageOf(e), FUNDS_PHRASES) || e.code == StrCode("INSUFFICIENT_FUNDS")
  }

  predicate IsNetworkFailure(e: Web3Error) {
    MentionsAny(MessageOf(e), NETWORK_PHRASES) || e.code == StrCode("NETWORK_ERROR")
  }

  predicate IsRevert(e: Web3Error) {
    MentionsAny(MessageOf(e), REVERT_PHRASES) || e.code == StrCode("CALL_EXCEPTION")
  }

  predicate IsNotConnected(e: Web3Error) {
    MentionsAny(MessageOf(e), NOT_CONNECTED_PHRASES)
  }

  const REJECTED := ErrorInfo("交易已取消", "您取消了钱包中的交易确认",
    "如需绘制像素，请重新点击并在钱包中确认交易", User, "❌")
  const INSUFFICIENT_FUNDS := ErrorInfo("ETH余额不足", "您的钱包ETH余额不足以支付交易费用",
    "请确保钱包中有足够的ETH来支付gas费和绘制费用", User, "💰")
  const NETWORK_DOWN := ErrorInfo("网络连接异常", "无法连接到区块链网络",
    "请检查网络连接，确保连接到正确的网络（Localhost 或 Sepolia）", Network, "🌐")
  const X_OUT_OF_BOUNDS := ErrorInfo("坐标超出范围", "X坐标超出了画布范围",
    "请点击画布内的有效区域（0-15）", Contract, "📍")
  const Y_OUT_OF_BOUNDS := ErrorInfo("坐标超出范围", "Y坐标超出了画布范围",
    "请点击画布内的有效区域（0-15）", Contract, "📍")
  const INVALID_COLOR := ErrorInfo("颜色值无效", "选择的颜色值不在有效范围内",
    "请从调色板中选择有效的颜色（0-7）", Contract, "🎨")
  const INSUFFICIENT_FEE := ErrorInfo("费用不足", "支付的费用低于要求的绘制费用",
    "请确保支付足够的费用（0.001 ETH）", Contract, "💳")
  const CONTRACT_FAILED := ErrorInfo("合约执行失败", "智能合约执行过程中发生错误",
    "请检查交易参数是否正确，稍后重试", Contract, "⚠️")
  const NOT_CONNECTED := ErrorInfo("钱包未连接", "请先连接您的Web3钱包",
    "点击右上角的\"连接钱包\"按钮连接您的钱包", User, "🔗")
  const UNKNOWN_ERROR := ErrorInfo("操作失败", "发生了未知错误",
    "请稍后重试，如果问题持续存在请联系支持", Unknown, "❓")

  // The revert reasons of the pixel contract, tested in this order.
  const X_REASON := "X coordinate out of bounds"
  const Y_REASON := "Y coordinate out of bounds"
  const COLOR_REASON := "Invalid color"
  const FEE_REASON := "Insufficient fee"

  /** The contract branch is taken: a revert, and no earlier guard holds. */
  predicate IsContractFailure(e: Web3Error) {
    !IsRejection(e) && !IsFundsShortage(e) && !IsNetworkFailure(e) && IsRevert(e)
  }

  /** Which contract notice a revert maps to, by the revert reason text. */
  function RevertNotice(text: string): ErrorInfo {
    if Contains(text, X_REASON) then X_OUT_OF_BOUNDS
    else if Contains(text, Y_REASON) then Y_OUT_OF_BOUNDS
    else if Contains(text, COLOR_REASON) then INVALID_COLOR
    else if Contains(text, FEE_REASON) then INSUFFICIENT_FEE
    else CONTRACT_FAILED
  }

  /** `parseWeb3Error`: the first guard that holds picks the notice; every
      notice, the four revert-reason notices included, is returned exactly
      when its guard holds and no earlier one does, and an error matching
      no guard gets the generic notice. */
  function ParseWeb3Error(e: Web3Error): (info: ErrorInfo)
    ensures info == REJECTED <==> IsRejection(e)
    ensures info == INSUFFICIENT_FUNDS <==> !IsRejection(e) && IsFundsShortage(e)
    ensures info == NETWORK_DOWN <==> !IsRejection(e) && !IsFundsShortage(e) && IsNetworkFailure(e)
    ensures info.kind == Network <==> info == NETWORK_DOWN
    ensures info.kind == Contract <==> IsContractFailure(e)
    ensures info == X_OUT_OF_BOUNDS <==>
      IsContractFailure(e) && Contains(MessageOf(e), X_REASON)
    ensures info == Y_OUT_OF_BOUNDS <==>
      IsContractFailure(e) && !Contains(MessageOf(e), X_REASON)
      && Contains(MessageOf(e), Y_REASON)
    ensures info == INVALID_COLOR <==>
      IsContractFailure(e) && !Contains(MessageOf(e), X_REASON)
      && !Contains(MessageOf(e), Y_REASON) && Contains(MessageOf(e), COLOR_REASON)
    ensures info == INSUFFICIENT_FEE <==>
      IsContractFailure(e) && !Contains(MessageOf(e), X_REASON)
      && !Contains(MessageOf(e), Y_REASON) && !Contains(MessageOf(e), COLOR_REASON)
      && Contains(MessageOf(e), FEE_REASON)
    ensures info == CONTRACT_FAILED <==>
      IsContractFailure(e) && !Contains(MessageOf(e), X_REASON)
      && !Contains(MessageOf(e), Y_REASON) && !Contains(MessageOf(e), COLOR_REASON)
      && !Contains(MessageOf(e), FEE_REASON)
    ensures info == NOT_CONNECTED <==>
      !IsRejection(e) && !IsFundsShortage(e) && !IsNetworkFailure(e) && !IsRevert(e)
      && IsNotConnected(e)
    ensures info == UNKNOWN_ERROR <==>
      !IsRejection(e) && !IsFundsShortage(e) && !IsNetworkFailure(e) && !IsRevert(e)
      && !IsNotConnected(e)
  {
    if IsRejection(e) then REJECTED
    else if IsFundsShortage(e) then INSUFFICIENT_FUNDS
    else if IsNetworkFailure(e) then NETWORK_DOWN
    else if IsRevert(e) then RevertNotice(MessageOf(e))
    else if IsNotConnected(e) then NOT_CONNECTED
    else UNKNOWN_ERROR
  }

  /** A phrase longer than the text cannot occur in it. */
  lemma {:induction false} TooLongToContain(s: string, sub: string)
    requires |sub| > |s|
    ensures !Contains(s, sub)
  {
    if s != [] {
      TooLongToContain(s[1..], sub);
    }
  }

  lemma {:induction false} NoLongPhrase(s: string, phrases: seq<string>)
    requires forall i :: 0 <= i < |phrases| ==> |phrases[i]| > |s|
    ensures !MentionsAny(s, phrases)
  {
    if phrases != [] {
      TooLongToContain(s, phrases[0]);
      NoLongPhrase(s, phrases[1..]);
    }
  }

  /** The classification an error gets from its code alone. */
  function ByCode(c: Code): ErrorInfo {
    match c
    case NumCode(n) => if n == 4001 then REJECTED else UNKNOWN_ERROR
    case StrCode(s) =>
      if s == "ACTION_REJECTED" then REJECTED
      else if s == "INSUFFICIENT_FUNDS" then INSUFFICIENT_FUNDS
      else if s == "NETWORK_ERROR" then NETWORK_DOWN
      else if s == "CALL_EXCEPTION" then CONTRACT_FAILED
      else UNKNOWN_ERROR
    case NoCode => UNKNOWN_ERROR
  }

  /** An error without any text is classified by its code alone: the
      placeholder '未知错误' matches no phrase, a `CALL_EXCEPTION` then always
      yields the generic contract notice, and the string "4001" is not the
      number 4001. */
  lemma TextlessErrorClassifiedByCode(e: Web3Error)
    requires e.message == "" && !Truthy(e.shortMessage) && !Truthy(e.reason)
    ensures ParseWeb3Error(e) == ByCode(e.code)
  {
    var t := MessageOf(e);
    assert t == UNKNOWN_TEXT;
    NoLongPhrase(t, REJECTION_PHRASES);
    NoLongPhrase(t, FUNDS_PHRASES);
    NoLongPhrase(t, NETWORK_PHRASES);
    NoLongPhrase(t, REVERT_PHRASES);
    NoLongPhrase(t, NOT_CONNECTED_PHRASES);
    TooLongToContain(t, X_REASON);
    TooLongToContain(t, Y_REASON);
    TooLongToContain(t, COLOR_REASON);
    TooLongToContain(t, FEE_REASON);
  }

  lemma ContainsInfix(p: string, w: string, q: string)
    ensures Contains(p + w + q, w)
  {
    var s := p + w + q;
    assert s[|p|..|p| + |w|] == w;
    assert OccursAt(s, w, |p|);
    ContainsIff(s, w);
  }

  /** A rejection phrase anywhere in the text wins over every other guard,
      whatever the code says. */
  lemma RejectionPhraseWins(e: Web3Error, p: string, i: int, q: string)
    requires 0 <= i < |REJECTION_PHRASES|
    requires MessageOf(e) == p + REJECTION_PHRASES[i] + q
    ensures ParseWeb3Error(e) == REJECTED
  {
    ContainsInfix(p, REJECTION_PHRASES[i], q);
    MentionsAnyIff(MessageOf(e), REJECTION_PHRASES);
  }

  /** Provider code 4001 is a rejection, whatever the text says. */
  lemma RejectionCodeWins(e: Web3Error)
    requires e.code == NumCode(4001)
    ensures ParseWeb3Error(e) == REJECTED
  {
  }

  /** `Contains` is transitive through an intermediate phrase. */
  lemma {:induction false} ContainsTransitive(s: string, mid: string, sub: string)
    requires Contains(s, mid) && Contains(mid, sub)
    ensures Contains(s, sub)
  {
    ContainsIff(s, mid);
    ContainsIff(mid, sub);
    var i :| OccursAt(s, mid, i);
    var j :| OccursAt(mid, sub, j);
    forall k | 0 <= k < |sub|
      ensures s[i + j..i + j + |sub|][k] == sub[k]
    {
      assert s[i + j + k] == mid[j + k];
    }
    assert s[i + j..i + j + |sub|] == sub;
    assert OccursAt(s, sub, i + j);
    ContainsIff(s, sub);
  }

  lemma MentionsThree(s: string, a: string, b: string, c: string)
    ensures MentionsAny(s, [a, b, c]) <==> Contains(s, a) || Contains(s, b) || Contains(s, c)
  {
    assert [a, b, c][1..] == [b, c];
    assert [b, c][1..] == [c];
    assert [c][1..] == [];
    assert MentionsAny(s, [c]) == Contains(s, c);
    assert MentionsAny(s, [b, c]) == (Contains(s, b) || Contains(s, c));
  }

  lemma RevertInExecutionReverted()
    ensures Contains("execution reverted", "revert")
  {
    var s := "execution reverted";
    assert s[10..16] == "revert";
    assert OccursAt(s, "revert", 10);
    ContainsIff(s, "revert");
  }

  lemma NotConnectedInWalletNotConnected()
    ensures Contains("wallet not connected", "not connected")
  {
    var s := "wallet not connected";
    assert s[7..20] == "not connected";
    assert OccursAt(s, "not connected", 7);
    ContainsIff(s, "not connected");
  }

  /** Two of the listed phrases are redundant: 'execution reverted'
      contains 'revert' and 'wallet not connected' contains 'not
      connected', so they never change a classification. */
  lemma RedundantPhrases(s: string)
    ensures MentionsAny(s, REVERT_PHRASES) <==> Contains(s, "revert") || Contains(s, "require")
    ensures MentionsAny(s, NOT_CONNECTED_PHRASES) <==>
      Contains(s, "not connected") || Contains(s, "no provider")
  {
    MentionsThree(s, "execution reverted", "revert", "require");
    MentionsThree(s, "not connected", "no provider", "wallet not connected");
    if Contains(s, "execution reverted") {
      RevertInExecutionReverted();
      ContainsTransitive(s, "execution reverted", "revert");
    }
    if Contains(s, "wallet not connected") {
      NotConnectedInWalletNotConnected();
      ContainsTransitive(s, "wallet not connected", "not connected");
    }
  }

  const BASE_CLASSES := "border rounded-lg p-4 w-full max-w-md"

  /** `getErrorStyles`: container classes per notice type. */
  function GetErrorStyles(t: ErrorType): (r: string)
    ensures BASE_CLASSES <= r
  {
    match t
    case User => BASE_CLASSES + " bg-yellow-50 border-yellow-200"
    case Network => BASE_CLASSES + " bg-blue-50 border-blue-200"
    case Contract => BASE_CLASSES + " bg-red-50 border-red-200"
    case Unknown => BASE_CLASSES + " bg-gray-50 border-gray-200"
  }

  datatype TextStyles = TextStyles(title: string, message: string, suggestion: string)

  /** `getErrorTextStyles`: text classes per notice type. */
  function GetErrorTextStyles(t: ErrorType): TextStyles {
    match t
    case User => TextStyles("text-yellow-800", "text-yellow-700", "text-yellow-600")
    case Network => TextStyles("text-blue-800", "text-blue-700", "text-blue-600")
    case Contract => TextStyles("text-red-800", "text-red-700", "text-red-600")
    case Unknown => TextStyles("text-gray-800", "text-gray-700", "text-gray-600")
  }

  /** The Tailwind colour family of a notice type. */
  function Tone(t: ErrorType): string {
    match t
    case User => "yellow"
    case Network => "blue"
    case Contract => "red"
    case Unknown => "gray"
  }

  /** Container classes in colour family `c`: light background, a shade
      darker border. */
  function BoxClasses(c: string): string {
    " bg-" + c + "-50 border-" + c + "-200"
  }

  /** Text classes in colour family `c`, darkest for the title. */
  function TextClasses(c: string): TextStyles {
    TextStyles("text-" + c + "-800", "text-" + c + "-700", "text-" + c + "-600")
  }

  lemma YellowBox() ensures " bg-yellow-50 border-yellow-200" == BoxClasses("yellow") {}
  lemma BlueBox() ensures " bg-blue-50 border-blue-200" == BoxClasses("blue") {}
  lemma RedBox() ensures " bg-red-50 border-red-200" == BoxClasses("red") {}
  lemma GrayBox() ensures " bg-gray-50 border-gray-200" == BoxClasses("gray") {}

  lemma YellowText() ensures TextStyles("text-yellow-800", "text-yellow-700", "text-yellow-600") == TextClasses("yellow") {}
  lemma BlueText() ensures TextStyles("text-blue-800", "text-blue-700", "text-blue-600") == TextClasses("blue") {}
  lemma RedText() ensures TextStyles("text-red-800", "text-red-700", "text-red-600") == TextClasses("red") {}
  lemma GrayText() ensures TextStyles("text-gray-800", "text-gray-700", "text-gray-600") == TextClasses("gray") {}

  lemma TextClassesTable()
    ensures TextStyles("text-yellow-800", "text-yellow-700", "text-yellow-600") == TextClasses("yellow")
    ensures TextStyles("text-blue-800", "text-blue-700", "text-blue-600") == TextClasses("blue")
    ensures TextStyles("text-red-800", "text-red-700", "text-red-600") == TextClasses("red")
    ensures TextStyles("text-gray-800", "text-gray-700", "text-gray-600") == TextClasses("gray")
  {
    YellowText();
    BlueText();
    RedText();
    GrayText();
  }

  /** Both tables draw on one colour family per type. */
  lemma StylesShareTone(t: ErrorType)
    ensures GetErrorStyles(t) == BASE_CLASSES + BoxClasses(Tone(t))
    ensures GetErrorTextStyles(t) == TextClasses(Tone(t))
  {
    TextClassesTable();
    match t
    case User => YellowBox();
    case Network => BlueBox();
    case Contract => RedBox();
    case Unknown => GrayBox();
  }

  /** Different notice types are told apart by their container style, and
      by their title style. */
  lemma StylesDistinguishTypes(a: ErrorType, b: ErrorType)
    requires a != b
    ensures GetErrorStyles(a) != GetErrorStyles(b)
    ensures GetErrorTextStyles(a).title != GetErrorTextStyles(b).title
  {
    StylesShareTone(a);
    StylesShareTone(b);
    assert Tone(a)[0] != Tone(b)[0];
    assert (BASE_CLASSES + BoxClasses(Tone(a)))[|BASE_CLASSES| + 4] == Tone(a)[0];
    assert (BASE_CLASSES + BoxClasses(Tone(b)))[|BASE_CLASSES| + 4] == Tone(b)[0];
    assert TextClasses(Tone(a)).title[5] == Tone(a)[0];
    assert TextClasses(Tone(b)).title[5] == Tone(b)[0];
  }
}
