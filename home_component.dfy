/** The home screen of the wallet front end: a form to create a wallet, a form
    to transfer between wallets, the list of wallets, a busy flag, a success
    and an error message, and a light/dark theme kept in the browser's
    preference store and on the document's root element. Each handler and
    each response callback is one atomic step on that state. */
module Home {
  import opened JsText
  import opened TypeNormalization
  import opened PicpayApi

  /** The values of the wallet form's controls. */
  datatype WalletForm = WalletForm(
    fullName: JsValue,
    cpf: JsValue,
    email: JsValue,
    password: JsValue,
    accountType: JsValue,
    initialBalance: JsValue)

  /** The values of the transfer form's controls. */
  datatype TransferForm = TransferForm(payerId: JsValue, payeeId: JsValue, value: JsValue)

  const WalletCreated := "Carteira criada com sucesso!"
  const TransferDone := "Transfer\U{EA}ncia realizada com sucesso!"
  const WalletCreateFailed := "Erro ao criar carteira. Tente novamente."
  const TransferFailed := "Erro ao realizar transfer\U{EA}ncia. Tente novamente."
  const WalletsLoadFailed := "Erro ao carregar carteiras. Tente novamente."

  /** The preference-store key and the class the theme uses. */
  const ThemeKey := "theme"
  const DarkClass := "dark-theme"

  /** The name stored and written to `data-theme` for a theme. */
  function ThemeName(dark: bool): (name: string)
    ensures name == "dark" <==> dark
    ensures name != ""
  {
    if dark then "dark" else "light"
  }

  /** The wallet form's controls as the form builder creates them: empty
      texts, and a type and balance of 0, so that a wallet form left at its
      defaults asks for a shopkeeper account. */
  function InitialWalletForm(): (f: WalletForm)
    ensures WalletRequestOf(f).accountType == Some(0) && IsLojista(f.accountType)
    ensures WalletRequestOf(f).initialBalance == Num(0)
  {
    ParseIntNoRadixOfNumber(0);
    ParseIntOfNumber(0);
    WalletForm(Str(""), Str(""), Str(""), Str(""), Num(0), Num(0))
  }

  /** The transfer form's controls as the form builder creates them. */
  function InitialTransferForm(): TransferForm
  {
    TransferForm(Str(""), Str(""), Num(0))
  }

  /** `reset({type: 0, initialBalance: 0})`: the two named controls take those
      values and every other control becomes null, so the reset form again
      asks for a shopkeeper account with a balance of 0. */
  function ResetWalletForm(): (f: WalletForm)
    ensures WalletRequestOf(f).accountType == Some(0) && IsLojista(f.accountType)
    ensures WalletRequestOf(f).initialBalance == Num(0)
    ensures f.fullName.Null? && f.cpf.Null? && f.email.Null? && f.password.Null?
  {
    ParseIntNoRadixOfNumber(0);
    ParseIntOfNumber(0);
    WalletForm(Null, Null, Null, Null, Num(0), Num(0))
  }

  /** `reset({value: 0})`. */
  function ResetTransferForm(): TransferForm
  {
    TransferForm(Null, Null, Num(0))
  }

  /** The request built from the wallet form: every control is sent as it is,
      except the account type, which is read with `parseInt` and no radix. A
      numeric type below 10^21 in magnitude is sent as that number, and a
      missing one as `NaN`. */
  function WalletRequestOf(f: WalletForm): (r: WalletRequest)
    ensures r.fullName == f.fullName && r.cpf == f.cpf && r.email == f.email
    ensures r.password == f.password && r.initialBalance == f.initialBalance
    ensures f.accountType.Num? && -ExponentThreshold < f.accountType.n < ExponentThreshold ==>
      r.accountType == Some(f.accountType.n)
    ensures f.accountType.Undefined? || f.accountType.Null? ==> r.accountType.None?
  {
    var n := if f.accountType.Num? then f.accountType.n else 0;
    ParseIntNoRadixOfNumber(n);
    ParseIntOfNumber(n);
    ParseIntNoRadixOfMissing();
    WalletRequest(f.fullName, f.cpf, f.email, f.password, ParseIntNoRadix(f.accountType), f.initialBalance)
  }

  /** `error.error?.message || fallback`: the server's message when there is
      one and it is not empty, otherwise the operation's own message. */
  function ServerMessageOr(e: ErrorBody, fallback: string): (m: string)
    ensures e.JsonBody? && e.message.Some? && e.message.value != "" ==> m == e.message.value
    ensures !(e.JsonBody? && e.message.Some? && e.message.value != "") ==> m == fallback
    ensures fallback != "" ==> m != ""
  {
    match e
    case JsonBody(Some(text)) => if text != "" then text else fallback
    case _ => fallback
  }

  /** The wallets the service returned, each with its account type normalised
      to a number and every other field as it came. */
  function NormalizeWallets(data: seq<Wallet>): (ws: seq<Wallet>)
    ensures |ws| == |data|
    ensures forall i :: 0 <= i < |data| ==>
      ws[i].accountType == Num(ConvertTypeToNumber(data[i].accountType)) &&
      ws[i].id == data[i].id && ws[i].fullName == data[i].fullName &&
      ws[i].cpf == data[i].cpf && ws[i].email == data[i].email &&
      ws[i].balance == data[i].balance
  {
    seq(|data|, i requires 0 <= i < |data| =>
      data[i].(accountType := Num(ConvertTypeToNumber(data[i].accountType))))
  }

  /** Normalising an already normalised list changes nothing: every account
      type is a number afterwards, and numbers pass through. */
  lemma NormalizeWalletsIdempotent(data: seq<Wallet>)
    ensures NormalizeWallets(NormalizeWallets(data)) == NormalizeWallets(data)
  {
    var once := NormalizeWallets(data);
    var twice := NormalizeWallets(once);
    forall i | 0 <= i < |data| ensures twice[i] == once[i] {
      assert once[i].accountType.Num?;
    }
  }

  /** A shopkeeper in the normalised list is exactly a wallet whose type the
      service reported as a shopkeeper. */
  lemma NormalizedShopkeepers(data: seq<Wallet>, i: int)
    requires 0 <= i < |data|
    ensures IsLojista(NormalizeWallets(data)[i].accountType) <==> IsLojista(data[i].accountType)
  {
  }

  /** The browser state the component writes: the preference store, the
      `data-theme` attribute and the class list of the document's root
      element. */
  class Browser {
    var storage: map<string, string>
    var dataTheme: Option<string>
    var rootClasses: set<string>

    constructor (storage: map<string, string>)
      ensures this.storage == storage && dataTheme == None && rootClasses == {}
    {
      this.storage := storage;
      dataTheme := None;
      rootClasses := {};
    }
  }

  class HomeComponent {
    var walletForm: WalletForm
    var transferForm: TransferForm
    var wallets: seq<Wallet>
    var loading: bool
    var successMessage: string
    var errorMessage: string
    var isDarkMode: bool
    const browser: Browser
    const service: PicpayService

    /** The flag, the `data-theme` attribute, the `dark-theme` class and the
        stored preference all say the same theme: the page and the store say
        "dark" exactly in dark mode. */
    predicate ThemeApplied()
      reads this, browser
      ensures ThemeApplied() ==> (browser.dataTheme == Some("dark") <==> isDarkMode)
      ensures ThemeApplied() ==> ThemeKey in browser.storage && (browser.storage[ThemeKey] == "dark" <==> isDarkMode)
    {
      browser.dataTheme == Some(ThemeName(isDarkMode)) &&
      (DarkClass in browser.rootClasses <==> isDarkMode) &&
      ThemeKey in browser.storage && browser.storage[ThemeKey] == ThemeName(isDarkMode)
    }

    constructor (browser: Browser, service: PicpayService)
      ensures this.browser == browser && this.service == service
      ensures wallets == [] && !loading && successMessage == "" && errorMessage == ""
      ensures !isDarkMode
      ensures walletForm == InitialWalletForm() && transferForm == InitialTransferForm()
    {
      this.browser := browser;
      this.service := service;
      wallets := [];
      loading := false;
      successMessage := "";
      errorMessage := "";
      isDarkMode := false;
      walletForm := InitialWalletForm();
      transferForm := InitialTransferForm();
    }

    /** `ngOnInit`: build the forms, start loading the wallets, apply the
        stored theme. */
    method NgOnInit()
      modifies this, browser, service
      ensures walletForm == InitialWalletForm() && transferForm == InitialTransferForm()
      ensures loading && errorMessage == "" && service.calls == old(service.calls) + [ListWallets]
      ensures isDarkMode <==> ThemeKey in browser.storage && browser.storage[ThemeKey] == "dark"
      ensures browser.dataTheme == Some(ThemeName(isDarkMode))
      ensures browser.storage == old(browser.storage) && browser.rootClasses == old(browser.rootClasses)
      ensures wallets == old(wallets) && successMessage == old(successMessage)
    {
      InitializeForms();
      LoadWallets();
      LoadThemePreference();
    }

    /** `initializeForms`. */
    method InitializeForms()
      modifies this
      ensures walletForm == InitialWalletForm() && transferForm == InitialTransferForm()
      ensures wallets == old(wallets) && loading == old(loading) && isDarkMode == old(isDarkMode)
      ensures successMessage == old(successMessage) && errorMessage == old(errorMessage)
    {
      walletForm := InitialWalletForm();
      transferForm := InitialTransferForm();
    }

    /** `loadThemePreference`: dark exactly when the stored preference is
        "dark"; the attribute follows, the class list is left alone. */
    method LoadThemePreference()
      modifies this, browser
      ensures isDarkMode <==> ThemeKey in browser.storage && browser.storage[ThemeKey] == "dark"
      ensures browser.dataTheme == Some(ThemeName(isDarkMode))
      ensures browser.storage == old(browser.storage) && browser.rootClasses == old(browser.rootClasses)
      ensures old(ThemeApplied()) ==> ThemeApplied() && isDarkMode == old(isDarkMode)
      ensures walletForm == old(walletForm) && transferForm == old(transferForm)
      ensures wallets == old(wallets) && loading == old(loading)
      ensures successMessage == old(successMessage) && errorMessage == old(errorMessage)
    {
      var savedTheme := if ThemeKey in browser.storage then Some(browser.storage[ThemeKey]) else None;
      if savedTheme == Some("dark") {
        isDarkMode := true;
        browser.dataTheme := Some("dark");
      } else {
        isDarkMode := false;
        browser.dataTheme := Some("light");
      }
    }

    /** `toggleTheme`: flip the flag and bring the attribute, the class and the
        stored preference in line with it. */
    method ToggleTheme()
      modifies this, browser
      ensures isDarkMode == !old(isDarkMode)
      ensures ThemeApplied()
      ensures browser.storage == old(browser.storage)[ThemeKey := ThemeName(isDarkMode)]
      ensures browser.rootClasses - {DarkClass} == old(browser.rootClasses) - {DarkClass}
      ensures walletForm == old(walletForm) && transferForm == old(transferForm)
      ensures wallets == old(wallets) && loading == old(loading)
      ensures successMessage == old(successMessage) && errorMessage == old(errorMessage)
    {
      isDarkMode := !isDarkMode;
      if isDarkMode {
        browser.dataTheme := Some("dark");
        browser.rootClasses := browser.rootClasses + {DarkClass};
        browser.storage := browser.storage[ThemeKey := "dark"];
      } else {
        browser.dataTheme := Some("light");
        browser.rootClasses := browser.rootClasses - {DarkClass};
        browser.storage := browser.storage[ThemeKey := "light"];
      }
    }

    /** Two clicks on the theme switch give back the theme the page had, and
        the stored preference then names it. */
    method ToggleThemeTwice()
      modifies this, browser
      ensures isDarkMode == old(isDarkMode) && ThemeApplied()
      ensures old(ThemeApplied()) ==> browser.storage == old(browser.storage)
    {
      ToggleTheme();
      ToggleTheme();
    }

    /** `onCreateWallet`, up to the request: nothing happens while the form is
        invalid; otherwise the screen goes busy, both messages are cleared and
        the creation request is sent. */
    method OnCreateWallet(formValid: bool)
      modifies this, service
      ensures !formValid ==>
        service.calls == old(service.calls) && loading == old(loading) &&
        successMessage == old(successMessage) && errorMessage == old(errorMessage)
      ensures formValid ==>
        loading && successMessage == "" && errorMessage == "" &&
        service.calls == old(service.calls) + [PostWallet(WalletRequestOf(walletForm))]
      ensures walletForm == old(walletForm) && transferForm == old(transferForm)
      ensures wallets == old(wallets) && isDarkMode == old(isDarkMode)
    {
      if !formValid {
        return;
      }
      loading := true;
      errorMessage := "";
      successMessage := "";
      var walletData := WalletRequestOf(walletForm);
      service.CreateWallet(walletData);
    }

    /** The creation succeeded: report it, reset the form, reload the wallets
        and leave the busy state at once. */
    method OnCreateWalletNext()
      modifies this, service
      ensures successMessage == WalletCreated && errorMessage == "" && !loading
      ensures walletForm == ResetWalletForm() && transferForm == old(transferForm)
      ensures service.calls == old(service.calls) + [ListWallets]
      ensures wallets == old(wallets) && isDarkMode == old(isDarkMode)
    {
      successMessage := WalletCreated;
      walletForm := ResetWalletForm();
      LoadWallets();
      loading := false;
    }

    /** The creation failed: show the server's message or the fallback. */
    method OnCreateWalletError(error: ErrorBody)
      modifies this
      ensures errorMessage == ServerMessageOr(error, WalletCreateFailed) && errorMessage != ""
      ensures !loading
      ensures wallets == old(wallets) && successMessage == old(successMessage)
      ensures walletForm == old(walletForm) && transferForm == old(transferForm)
      ensures isDarkMode == old(isDarkMode)
    {
      errorMessage := ServerMessageOr(error, WalletCreateFailed);
      loading := false;
    }

    /** `onTransfer`, up to the request. */
    method OnTransfer(formValid: bool)
      modifies this, service
      ensures !formValid ==>
        service.calls == old(service.calls) && loading == old(loading) &&
        successMessage == old(successMessage) && errorMessage == old(errorMessage)
      ensures formValid ==>
        loading && successMessage == "" && errorMessage == "" &&
        service.calls == old(service.calls) + [PostTransfer(TransferRequest(transferForm.payerId, transferForm.payeeId, transferForm.value))]
      ensures walletForm == old(walletForm) && transferForm == old(transferForm)
      ensures wallets == old(wallets) && isDarkMode == old(isDarkMode)
    {
      if !formValid {
        return;
      }
      loading := true;
      errorMessage := "";
      successMessage := "";
      var transferData := TransferRequest(transferForm.payerId, transferForm.payeeId, transferForm.value);
      service.Transfer(transferData);
    }

    /** The transfer succeeded. */
    method OnTransferNext()
      modifies this, service
      ensures successMessage == TransferDone && errorMessage == "" && !loading
      ensures transferForm == ResetTransferForm() && walletForm == old(walletForm)
      ensures service.calls == old(service.calls) + [ListWallets]
      ensures wallets == old(wallets) && isDarkMode == old(isDarkMode)
    {
      successMessage := TransferDone;
      transferForm := ResetTransferForm();
      LoadWallets();
      loading := false;
    }

    /** The transfer failed. */
    method OnTransferError(error: ErrorBody)
      modifies this
      ensures errorMessage == ServerMessageOr(error, TransferFailed) && errorMessage != ""
      ensures !loading
      ensures wallets == old(wallets) && successMessage == old(successMessage)
      ensures walletForm == old(walletForm) && transferForm == old(transferForm)
      ensures isDarkMode == old(isDarkMode)
    {
      errorMessage := ServerMessageOr(error, TransferFailed);
      loading := false;
    }

    /** `loadWallets`, up to the request: busy, error cleared, the success
        message kept. */
    method LoadWallets()
      modifies this, service
      ensures loading && errorMessage == "" && successMessage == old(successMessage)
      ensures service.calls == old(service.calls) + [ListWallets]
      ensures wallets == old(wallets) && isDarkMode == old(isDarkMode)
      ensures walletForm == old(walletForm) && transferForm == old(transferForm)
    {
      loading := true;
      errorMessage := "";
      service.GetWallets();
    }

    /** The wallet list arrived: replace the list with its normalised form. */
    method OnWalletsLoaded(data: seq<Wallet>)
      modifies this
      ensures wallets == NormalizeWallets(data) && !loading
      ensures successMessage == old(successMessage) && errorMessage == old(errorMessage)
      ensures walletForm == old(walletForm) && transferForm == old(transferForm)
      ensures isDarkMode == old(isDarkMode)
    {
      wallets := NormalizeWallets(data);
      loading := false;
    }

    /** Loading the wallet list failed: the old list stays. */
    method OnWalletsLoadError(error: ErrorBody)
      modifies this
      ensures errorMessage == ServerMessageOr(error, WalletsLoadFailed) && errorMessage != ""
      ensures !loading
      ensures wallets == old(wallets) && successMessage == old(successMessage)
      ensures walletForm == old(walletForm) && transferForm == old(transferForm)
      ensures isDarkMode == old(isDarkMode)
    {
      errorMessage := ServerMessageOr(error, WalletsLoadFailed);
      loading := false;
    }

  }
}
