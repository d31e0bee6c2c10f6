/** The records the front end exchanges with the wallet service, and the
    service itself reduced to the requests it is asked to send. */
module PicpayApi {
  import opened JsText

  /** A wallet as the service lists it. The service reports the account type
      either as a number or as a label such as "Shopkeeper" or "User". */
  datatype Wallet = Wallet(
    id: Option<string>,
    fullName: string,
    cpf: string,
    email: string,
    accountType: JsValue,
    balance: real)

  /** The body of a wallet-creation request. The form controls are sent as
      they are, except the account type, which goes through `parseInt`
      (`None` stands for NaN). */
  datatype WalletRequest = WalletRequest(
    fullName: JsValue,
    cpf: JsValue,
    email: JsValue,
    password: JsValue,
    accountType: Option<int>,
    initialBalance: JsValue)

  /** The body of a transfer request. */
  datatype TransferRequest = TransferRequest(payerId: JsValue, payeeId: JsValue, value: JsValue)

  /** One HTTP request the service was asked to make. */
  datatype ServiceCall =
    | PostTransfer(transfer: TransferRequest)
    | PostWallet(wallet: WalletRequest)
    | ListWallets

  /** The `error` member of a failed response: no body, a plain-text body, or
      a JSON body with or without a string `message`. */
  datatype ErrorBody = NoBody | TextBody(text: string) | JsonBody(message: Option<string>)

  /** The service, seen from the component: every operation issues exactly one
      request and answers later through a callback. */
  class PicpayService {
    var calls: seq<ServiceCall>

    constructor ()
      ensures calls == []
    {
      calls := [];
    }

    /** `transfer`: one POST to `/transfer`. */
    method Transfer(transfer: TransferRequest)
      modifies this
      ensures calls == old(calls) + [PostTransfer(transfer)]
    {
      calls := calls + [PostTransfer(transfer)];
    }

    /** `createWallet`: one POST to `/wallets`. */
    method CreateWallet(wallet: WalletRequest)
      modifies this
      ensures calls == old(calls) + [PostWallet(wallet)]
    {
      calls := calls + [PostWallet(wallet)];
    }

    /** `getWallets`: one GET of `/wallets`. */
    method GetWallets()
      modifies this
      ensures calls == old(calls) + [ListWallets]
    {
      calls := calls + [ListWallets];
    }
  }
}
