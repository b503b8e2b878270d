/** The session state of the product-lookup page and the transitions that change it: binding
    the contract handle once after mount, and the lookup itself. The lookup awaits one contract
    call, so it is split at the `await` into `Begin` (validation, the loading flag, the call)
    and `Settle` (what happens when the call resolves or rejects); `Fetch` is the two run
    back to back. */
module Lookup {
  import opened Options
  import opened Strings

  /** The deployed contract the handle is bound to. */
  const ContractAddress: String := "0x5FbDB2315678afecb367f032d93F642f64180aa3"

  const NoWalletMessage: String := "MetaMask is not installed. Please install MetaMask to use this application."
  const EmptyIdMessage: String := "Please enter a Product ID"
  const NoContractMessage: String := "Contract is not initialized!"
  const NotFoundMessage: String := "Product not found. Please check the Product ID."

  /** The tuple `getProductDetails` returns: name, batch id and the detail string. */
  datatype Product = Product(name: String, batchId: String, details: String)

  /** A read-only contract handle; only its address is observable here. */
  datatype Contract = Contract(address: String)

  /** The page's React state: the typed identifier, the last product shown, the contract
      handle, the error banner text and the loading flag. */
  datatype State = State(
    productId: String,
    productDetails: Option<Product>,
    contract: Option<Contract>,
    error: Option<String>,
    isLoading: bool)

  /** How the awaited `getProductDetails` call ended. */
  datatype Outcome = Returned(product: Product) | Rejected

  /** A transition's result: the new state, and the argument of the contract call it
      started, if it started one. */
  datatype Step = Step(post: State, call: Option<String>)

  /** The state on mount, before the effect has run. */
  const Initial: State := State([], None, None, None, false)

  /** The mount effect: with a wallet provider the handle is bound and nothing else changes;
      without one the handle stays as it was and the banner says so. */
  function Bind(s: State, walletPresent: bool): (r: State)
    ensures r.contract.Some? <==> walletPresent || s.contract.Some?
    ensures walletPresent ==> r.contract.value.address == ContractAddress && r.error == s.error
    ensures !walletPresent ==> r.contract == s.contract && r.error == Some(NoWalletMessage)
    ensures r.productId == s.productId && r.productDetails == s.productDetails
    ensures r.isLoading == s.isLoading
  {
    if walletPresent then
      s.(contract := Some(Contract(ContractAddress)))
    else
      s.(error := Some(NoWalletMessage))
  }

  /** `fetchProductDetails` up to the `await`. A call is started exactly when the identifier
      is not blank and a handle is bound; its argument is the identifier as typed, untrimmed. */
  function Begin(s: State): (r: Step)
    ensures r.call.Some? <==> !IsBlank(s.productId) && s.contract.Some?
    ensures r.call.Some? ==> r.call.value == s.productId && r.post == s.(isLoading := true)
    ensures IsBlank(s.productId) ==> r.post == s.(error := Some(EmptyIdMessage))
    ensures !IsBlank(s.productId) && s.contract.None? ==>
              r.post == s.(error := Some(NoContractMessage))
  {
    TrimEmptyIffBlank(s.productId);
    if Trim(s.productId) == [] then
      Step(s.(error := Some(EmptyIdMessage)), None)
    else if s.contract.Some? then
      Step(s.(isLoading := true), Some(s.productId))
    else
      Step(s.(error := Some(NoContractMessage)), None)
  }

  /** `fetchProductDetails` after the `await`: the answer is shown verbatim and the banner
      cleared, or the product is cleared and the not-found banner shown; either way the
      loading flag drops and nothing else changes. */
  function Settle(s: State, outcome: Outcome): (r: State)
    ensures !r.isLoading
    ensures outcome.Returned? ==>
              r.productDetails == Some(outcome.product) && r.error.None?
    ensures outcome.Rejected? ==>
              r.productDetails.None? && r.error == Some(NotFoundMessage)
    ensures r.productId == s.productId && r.contract == s.contract
  {
    match outcome
    case Returned(p) => s.(productDetails := Some(p), error := None, isLoading := false)
    case Rejected => s.(error := Some(NotFoundMessage), productDetails := None, isLoading := false)
  }

  /** One whole `fetchProductDetails`, the call answered with `outcome`. */
  function Fetch(s: State, outcome: Outcome): Step {
    var b := Begin(s);
    if b.call.Some? then Step(Settle(b.post, outcome), b.call) else b
  }

  /** The lookup button: `disabled={isLoading}` makes a click while loading do nothing. */
  function Click(s: State): (r: Step)
    ensures r.call.Some? <==> !s.isLoading && !IsBlank(s.productId) && s.contract.Some?
    ensures r.call.Some? ==> r.call.value == s.productId
    ensures s.isLoading ==> r.post == s
    ensures !s.isLoading ==> r == Begin(s)
  {
    if s.isLoading then Step(s, None) else Begin(s)
  }

  /** `handleKeyPress` as written: Enter runs the lookup, with no loading check. */
  function KeyPress(s: State, key: String): Step {
    if key == "Enter" then Begin(s) else Step(s, None)
  }

  /** `handleKeyPress` with the same guard as the button. */
  function GuardedKeyPress(s: State, key: String): (r: Step)
    ensures r.call.Some? <==>
              !s.isLoading && key == "Enter" && !IsBlank(s.productId) && s.contract.Some?
    ensures r.call.Some? ==> r.call.value == s.productId
    ensures s.isLoading || key != "Enter" ==> r.post == s
    ensures !s.isLoading && key == "Enter" ==> r == Begin(s)
  {
    if s.isLoading then Step(s, None) else KeyPress(s, key)
  }

  /** `setProductId` from the input box or a sample-id button. */
  function Edit(s: State, text: String): (r: State)
    ensures r.productId == text
    ensures r.(productId := s.productId) == s
  {
    s.(productId := text)
  }

  /** A blank identifier: no call, the empty-id banner, and the product, the loading flag and
      the handle untouched, whatever the call would have answered. */
  lemma FetchBlank(s: State, outcome: Outcome)
    requires IsBlank(s.productId)
    ensures Fetch(s, outcome).call.None?
    ensures Fetch(s, outcome).post.error == Some(EmptyIdMessage)
    ensures Fetch(s, outcome).post.productDetails == s.productDetails
    ensures Fetch(s, outcome).post.isLoading == s.isLoading
    ensures Fetch(s, outcome).post.contract == s.contract
  {
  }

  /** A non-blank identifier without a handle: no call, the not-initialized banner, the
      product and the loading flag untouched. */
  lemma FetchUnbound(s: State, outcome: Outcome)
    requires !IsBlank(s.productId) && s.contract.None?
    ensures Fetch(s, outcome).call.None?
    ensures Fetch(s, outcome).post.error == Some(NoContractMessage)
    ensures Fetch(s, outcome).post.productDetails == s.productDetails
    ensures Fetch(s, outcome).post.isLoading == s.isLoading
  {
  }

  /** A started lookup calls with the identifier exactly as typed, and afterwards the loading
      flag is down and exactly one of product and banner is set: the answer verbatim, or the
      not-found message. Identifier and handle are unchanged. */
  lemma FetchCalled(s: State, outcome: Outcome)
    requires !IsBlank(s.productId) && s.contract.Some?
    ensures Fetch(s, outcome).call == Some(s.productId)
    ensures !Fetch(s, outcome).post.isLoading
    ensures Fetch(s, outcome).post.productDetails.Some? != Fetch(s, outcome).post.error.Some?
    ensures outcome.Returned? ==>
              Fetch(s, outcome).post.productDetails == Some(outcome.product)
    ensures outcome.Rejected? ==>
              Fetch(s, outcome).post.error == Some(NotFoundMessage)
    ensures Fetch(s, outcome).post.productId == s.productId
    ensures Fetch(s, outcome).post.contract == s.contract
  {
  }

  /** The call argument is not trimmed: `" P3001 "` is sent with its spaces. */
  lemma UntrimmedArgument(s: State)
    requires s.productId == " P3001 " && s.contract.Some?
    ensures Begin(s).call == Some(" P3001 ")
  {
    assert !IsWhitespace(s.productId[1]);
  }

  /** Once bound, a handle is never replaced or dropped by the lookup or by typing. */
  lemma HandleStable(s: State, outcome: Outcome, key: String, text: String)
    ensures Begin(s).post.contract == s.contract
    ensures Settle(s, outcome).contract == s.contract
    ensures Click(s).post.contract == s.contract
    ensures KeyPress(s, key).post.contract == s.contract
    ensures Edit(s, text).contract == s.contract
  {
    var b := Begin(s);
    assert b.post.contract == s.contract by {
      if IsBlank(s.productId) {
      } else if s.contract.Some? {
      } else {
      }
    }
  }

  /** Binding after mount: with a provider the handle points at the deployed address and the
      banner is still empty; without one there is no handle and the banner names the wallet. */
  lemma BindFromInitial(walletPresent: bool)
    ensures Bind(Initial, walletPresent).contract.Some? <==> walletPresent
    ensures walletPresent ==> Bind(Initial, true).contract.value.address == ContractAddress
    ensures walletPresent ==> Bind(Initial, true).error.None?
    ensures !walletPresent ==> Bind(Initial, false).error == Some(NoWalletMessage)
  {
  }
}
