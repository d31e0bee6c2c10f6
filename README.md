# PicPay simplified front end: home screen model

This project models the home screen of a small Angular front end for a
simplified PicPay-style payment service. The screen creates wallets, transfers
money between wallets, lists the wallets and switches between a light and a
dark theme.

Two things are modelled:

- **Account-type normalisation** (`convertTypeToNumber` and `isLojista`). The
  wallet service reports a wallet's account type as a number or as a label
  ("Shopkeeper", "lojista", "User", "usuário", "0", "1"). The screen turns it
  into 0 for a shopkeeper account and 1 for a user account. It case-folds and
  trims the string, then matches it against the labels, then falls back to
  `parseInt`, then to 1. The model is pure: `TypeNormalization`, resting on
  `JsText`, which states the JavaScript built-ins the function uses:
  `String(x)`, `toLowerCase`, `trim`, `parseInt(x, 10)` and `parseInt(x)`.
- **The screen's state machine** (`Home.HomeComponent`). Its fields are:
  - the two forms;
  - the wallet list;
  - the busy flag `loading`;
  - the success and error messages;
  - the dark-mode flag.

  The browser state it writes is a `Browser` object. That object holds the
  preference store (the `theme` key), the `data-theme` attribute and the class
  list of the document's root element. The wallet service
  (`PicpayApi.PicpayService`) is reduced to the sequence of requests it has
  been asked to send. Each handler and each response callback is one method:
  - the synchronous half of `onCreateWallet`, `onTransfer` and `loadWallets`,
    up to the request;
  - each `next` and `error` callback;
  - `loadThemePreference` and `toggleTheme`.

  Whether a form is valid is a parameter.

Two consequences of the code are worth spelling out:

- Numbers and any parsed integer pass through unclamped, so "7" gives 7,
  although the comment at home.component.ts:157 names only 0 and 1.
  `StringOutOfRangeOnlyFromPrefix` states exactly when this happens.
- The success callbacks call `loadWallets()`, which sets `loading` to true,
  and then at once set `loading` to false (home.component.ts:109-110 and
  :140-141). The screen is therefore not busy while the reload is in flight.
  The success message also survives the reload, because `loadWallets` clears
  only the error message. `OnCreateWalletNext` and `OnTransferNext` state
  both.

The account type of a new wallet is read with `parseInt` and no radix
(home.component.ts:98), unlike the `parseInt(typeStr, 10)` of the
normalisation. Without a radix, `0x` or `0X` after the sign switches to
hexadecimal, so "0x1A" is sent as 26. `JsText.ParseIntNoRadix` models that
reading.

`loadThemePreference` writes the `data-theme` attribute but never the
`dark-theme` class, while `toggleTheme` keeps the attribute, the class and the
store in line. `ThemeApplied` names that agreement. `ToggleTheme` establishes
it. `LoadThemePreference` keeps it when it held before, but cannot establish
it on a page whose class list disagrees with the store.

## Model

| member | source | states |
|---|---|---|
| TypeNormalization.ConvertTypeToNumber | src/app/components/home/home.component.ts:171-202 | a missing value gives 1, a number is returned unchanged, and a string gives 0, 1 or the integer `parseInt` reads at the start of its case-folded, trimmed form |
| TypeNormalization.Canonical | src/app/components/home/home.component.ts:182 | `String(type).toLowerCase().trim()` of a string is no longer than it, has no white space at either end and has nothing left to case-fold |
| TypeNormalization.IsShopkeeperLabel | src/app/components/home/home.component.ts:185 | of the texts taken for a shopkeeper ("shopkeeper", "lojista", "0"), `parseInt` reads none as anything but 0, so testing them before `parseInt` agrees with it |
| TypeNormalization.IsUserLabel | src/app/components/home/home.component.ts:190 | of the texts taken for a user ("user", "usuário", "1"), `parseInt` reads none as anything but 1 |
| TypeNormalization.IsLojista | src/app/components/home/home.component.ts:204-207 | a missing value is never a shopkeeper type, and a number is one exactly when it is 0 |
| TypeNormalization.ConvertTypeText | src/app/components/home/home.component.ts:184-201 | the result for a canonical text is 0, 1 or what `parseInt` reads from it |
| TypeNormalization.LabelsParsed | src/app/components/home/home.component.ts:185-198 | `parseInt` reads the labels "0" and "1" as themselves and finds no number in the four word labels |
| TypeNormalization.LabelsUnpadded | src/app/components/home/home.component.ts:185-191 | no label has white space at either end, so trimming keeps it |
| TypeNormalization.LabelsDisjoint | src/app/components/home/home.component.ts:185-191 | no text is both a shopkeeper label and a user label |
| TypeNormalization.TextParsedPrefixWins | src/app/components/home/home.component.ts:184-198 | a trimmed text that starts with an integer gives that integer, including the labels "0" and "1" |
| TypeNormalization.TextWithoutIntegerIsUser | src/app/components/home/home.component.ts:184-201 | a trimmed text that is not a shopkeeper word and holds no integer prefix gives 1 |
| TypeNormalization.PaddedLower | src/app/components/home/home.component.ts:182 | case folding leaves the white space around a string alone |
| TypeNormalization.SameCanonicalSameType | src/app/components/home/home.component.ts:182-201 | two strings with the same case-folded, trimmed text give the same result |
| TypeNormalization.CanonicalIgnoresCaseAndPadding | src/app/components/home/home.component.ts:182 | changing case and adding surrounding white space does not change the canonical text |
| TypeNormalization.CaseAndPaddingInsensitive | src/app/components/home/home.component.ts:182-201 | changing case and adding surrounding white space does not change the result |
| TypeNormalization.LabelsInAnyCase | src/app/components/home/home.component.ts:182-192 | in any case and with any padding, "shopkeeper", "lojista" and "0" give 0, and "user", "usuário" and "1" give 1 |
| TypeNormalization.ParsedPrefixWins | src/app/components/home/home.component.ts:182-198 | whenever the canonical text starts with an integer, that integer is the result |
| TypeNormalization.NoIntegerMeansUser | src/app/components/home/home.component.ts:195-201 | a string whose canonical text is not a shopkeeper word and has no integer prefix gives 1 |
| TypeNormalization.CanonicalOfIntegerText | src/app/components/home/home.component.ts:182 | case folding and trimming keep the text of an integer at the front, followed by a part that does not start with a digit |
| TypeNormalization.IntegerPrefixKept | src/app/components/home/home.component.ts:195-198 | the text of an integer followed by non-digit text gives that integer |
| TypeNormalization.StringOutOfRangeOnlyFromPrefix | src/app/components/home/home.component.ts:195-198 | a string's result lies outside {0, 1} exactly when the integer at the start of its canonical text does |
| TypeNormalization.IsLojistaString | src/app/components/home/home.component.ts:204-207 | a string is a shopkeeper type exactly when its canonical text is "shopkeeper" or "lojista" or starts with the integer 0 |
| TypeNormalization.IsLojistaExactly | src/app/components/home/home.component.ts:204-207 | `isLojista` holds exactly for the number 0 and for such strings, and never for a missing value |
| TypeNormalization.ShopkeeperExample | src/app/components/home/home.component.ts:182-187 | "Shopkeeper" between a no-break space and a CR LF gives 0 |
| TypeNormalization.PaddedLojistaExample | src/app/components/home/home.component.ts:182-187 | " LOJISTA\n" gives 0 |
| TypeNormalization.UsuarioExample | src/app/components/home/home.component.ts:182-192 | "USUÁRIO" between a tab and a space gives 1 |
| TypeNormalization.TrailingTextExample | src/app/components/home/home.component.ts:195-198 | "2x" gives 2 |
| TypeNormalization.NegativeExample | src/app/components/home/home.component.ts:195-198 | "-3" gives -3 |
| TypeNormalization.UnknownTextExample | src/app/components/home/home.component.ts:200-201 | "xyz" gives 1 |
| JsText.Lower | src/app/components/home/home.component.ts:182 | `toLowerCase` keeps the length and folds each character on its own |
| JsText.TrimStart | src/app/components/home/home.component.ts:182 | the result is a suffix of the input, every character dropped is white space, and the result does not start with white space |
| JsText.TrimEnd | src/app/components/home/home.component.ts:182 | the result is a prefix of the input, every character dropped is white space, and the result does not end with white space |
| JsText.LowerIdempotent | src/app/components/home/home.component.ts:182 | case folding twice is case folding once |
| JsText.LowerAppend | src/app/components/home/home.component.ts:182 | case folding distributes over concatenation |
| JsText.TrimLowerCommute | src/app/components/home/home.component.ts:182 | trimming and case folding commute |
| JsText.TrimIgnoresPadding | src/app/components/home/home.component.ts:182 | `trim` removes any white space added at either end |
| JsText.TrimStartOfTrim | src/app/components/home/home.component.ts:182-195 | a trimmed string has nothing left for `parseInt` to skip |
| JsText.ParseIntTrimsStart | src/app/components/home/home.component.ts:195 | `ParseInt` converts to a string, skips leading white space and reads the prefix, as `parseInt` does |
| JsText.IntToStringRoundTrip | src/app/components/home/home.component.ts:195-197 | `parseInt` reads back the decimal text of any integer, whatever non-digit text follows it |
| JsText.ExponentTextStart | src/app/components/home/home.component.ts:98 | `String(m)` from 10^21 on starts with the leading digit of `m`, followed by a point or by `e` ("1e+21", "1.5e+21") |
| JsText.MagnitudeTextParts | src/app/components/home/home.component.ts:98 | the text of a magnitude is a run of digits followed by text that does not start with a digit, and the run denotes the magnitude below 10^21 and its leading digit from there on |
| JsText.NumberToStringShape | src/app/components/home/home.component.ts:98 | `String(n)` of an integer is not empty, starts with a digit or a minus sign, and holds only digits, `-`, `.`, `e` and `+` |
| JsText.ParseIntOfNumber | src/app/components/home/home.component.ts:98 | `parseInt` of an integer below 10^21 in magnitude is that integer; from 10^21 on it is the sign and the leading digit of its exponent notation; with `ParseIntNoRadixOfNumber` this is what line 98 sends for a numeric type control |
| JsText.ParseIntNoRadixOfNumber | src/app/components/home/home.component.ts:98 | without a radix, a number is read exactly as `parseInt(n, 10)` reads it, since its text never holds an `x` |
| JsText.ParseIntNoRadixOfMissing | src/app/components/home/home.component.ts:98 | without a radix, `undefined` and `null` read as NaN |
| JsText.HexPrefixRead | src/app/components/home/home.component.ts:98 | without a radix, `0x` or `0X` and a run of hexadecimal digits is read in base 16, whatever non-digit text follows |
| JsText.HexPrefixWithoutDigits | src/app/components/home/home.component.ts:98 | without a radix, `0x` with no hexadecimal digit after it is NaN, where `parseInt(s, 10)` reads 0 |
| JsText.RadixMatters | src/app/components/home/home.component.ts:98 | "0x1A" is 26 without a radix and 0 with radix 10 |
| JsText.Trim | src/app/components/home/home.component.ts:182 | `trim` gives a text no longer than its input that neither starts nor ends with white space |
| JsText.ParsePrefix | src/app/components/home/home.component.ts:195-196 | `parseInt` of a text with no leading white space is NaN exactly when the text does not start with a digit or a sign and a digit, and is negative only after a minus sign |
| JsText.ParseInt | src/app/components/home/home.component.ts:195 | `parseInt(x, 10)` of `undefined` or `null` is NaN; `ParseIntTrimsStart` gives its full recipe |
| Home.ThemeName | src/app/components/home/home.component.ts:35-42 | the stored and displayed name is "dark" exactly for the dark theme |
| Home.InitialWalletForm | src/app/components/home/home.component.ts:68-75 | a wallet form at its initial values asks for a shopkeeper account (type 0, which `isLojista` accepts) with a balance of 0 |
| Home.ResetWalletForm | src/app/components/home/home.component.ts:105-108 | after the reset the text controls are null and the form again asks for a shopkeeper account with a balance of 0 |
| Home.WalletRequestOf | src/app/components/home/home.component.ts:93-100 | the request carries the form's texts and balance as they are; a numeric type below 10^21 in magnitude is sent as that number and a missing one as NaN |
| Home.ServerMessageOr | src/app/components/home/home.component.ts:113 | the error shown is the server's message when present and not empty, else the fallback, and never empty when the fallback is not |
| Home.NormalizeWallets | src/app/components/home/home.component.ts:158-161 | same length, each account type normalised to a number, every other field untouched |
| Home.NormalizeWalletsIdempotent | src/app/components/home/home.component.ts:158-161 | normalising an already normalised list changes nothing |
| Home.NormalizedShopkeepers | src/app/components/home/home.component.ts:158-161 | normalisation keeps which wallets are shopkeepers |
| Home.HomeComponent.ThemeApplied | src/app/components/home/home.component.ts:51-61 | when the theme is applied, the `data-theme` attribute and the stored preference say "dark" exactly in dark mode |
| Home.HomeComponent.constructor | src/app/components/home/home.component.ts:13-24 | the screen starts idle, with no wallets, no messages and the light theme |
| Home.HomeComponent.NgOnInit | src/app/components/home/home.component.ts:26-30 | builds the forms, requests the wallet list once and applies the stored theme |
| Home.HomeComponent.InitializeForms | src/app/components/home/home.component.ts:67-82 | both forms hold their initial values (empty texts, type, balance and amount 0) and nothing else changes |
| Home.HomeComponent.LoadThemePreference | src/app/components/home/home.component.ts:32-44 | dark exactly when the stored preference is "dark", and the attribute matches; store and class list are untouched; an agreeing theme stays agreeing |
| Home.HomeComponent.ToggleTheme | src/app/components/home/home.component.ts:46-65 | the flag flips; attribute, class and stored preference all agree with it afterwards; nothing else in the store or class list changes |
| Home.HomeComponent.ToggleThemeTwice | src/app/components/home/home.component.ts:46-65 | toggling twice restores the flag, and restores the store when the theme agreed before |
| Home.HomeComponent.OnCreateWallet | src/app/components/home/home.component.ts:84-102 | an invalid form changes nothing and sends nothing; a valid one sets busy, clears both messages and sends exactly one request built from the form |
| Home.HomeComponent.OnCreateWalletNext | src/app/components/home/home.component.ts:103-111 | fixed success message, form reset, exactly one reload request, no longer busy, error message cleared, wallets unchanged |
| Home.HomeComponent.OnCreateWalletError | src/app/components/home/home.component.ts:112-115 | server message or fallback, never empty; not busy; wallets and success message unchanged |
| Home.HomeComponent.OnTransfer | src/app/components/home/home.component.ts:119-134 | an invalid form changes nothing and sends nothing; a valid one sets busy, clears both messages and sends exactly one transfer request carrying the form's payer, payee and value |
| Home.HomeComponent.OnTransferNext | src/app/components/home/home.component.ts:135-142 | fixed success message, form reset to null ids and value 0, exactly one reload request, no longer busy, wallets unchanged |
| Home.HomeComponent.OnTransferError | src/app/components/home/home.component.ts:143-146 | server message or fallback, never empty; not busy; wallets unchanged |
| Home.HomeComponent.LoadWallets | src/app/components/home/home.component.ts:150-154 | busy, error cleared, success message kept, exactly one list request |
| Home.HomeComponent.OnWalletsLoaded | src/app/components/home/home.component.ts:155-163 | the list becomes the normalised server list; not busy; messages unchanged |
| Home.HomeComponent.OnWalletsLoadError | src/app/components/home/home.component.ts:164-167 | server message or fallback, never empty; not busy; the old list stays |
| PicpayApi.PicpayService.Transfer | src/app/services/picpay.service.ts:44-46 | one transfer request is added to what the service sends |
| PicpayApi.PicpayService.CreateWallet | src/app/services/picpay.service.ts:53-55 | one wallet-creation request is added |
| PicpayApi.PicpayService.GetWallets | src/app/services/picpay.service.ts:61-63 | one wallet-list request is added |

## Left out

- HTTP: the service sends nothing over the network, and the URLs and the JSON encoding are not modelled. A response arrives as a call to one of the callback methods, in whatever order the caller chooses. Observable timing and subscription are not modelled.
- Numbers are integers. `parseFloat` on the initial balance (home.component.ts:99) and on the transfer value (:131) is not modelled; the raw control value goes into the request. Fractional numbers, NaN and `parseInt` rounding above 2^53 are not modelled either.
- JsText.NumberToString: numbers are exact integers, so from 10^21 on the exponent notation carries every significant digit of the integer, where JavaScript writes those of the nearest double. `parseInt` reads only the leading digit, which the two share unless rounding carries into it (JavaScript writes "1e+22" for 9999999999999999999999).
- JsText.Lower: folds ASCII, the Latin-1 capitals (U+00C0 to U+00DE, except U+00D7) and the Kelvin sign only. Other Unicode case mappings of `toLowerCase`, including those that change a string's length, are left out.
- Home.ServerMessageOr: treats `message` as a string. A non-string `message`, such as a number or an object, which JavaScript would show or coerce, is not modelled.
- Angular `Validators` (required, email format, minimum amounts) are not modelled; form validity is a parameter of `OnCreateWallet` and `OnTransfer`.
- The template writes the form controls as the user types; the model has no operation for that and treats the form contents as given.
- Home.HomeComponent.constructor: sets the forms to their initial values. In the code they stay undefined until `ngOnInit`.
- `console.log` calls are left out, and so is the extra read of the attribute after a toggle (home.component.ts:64); neither changes any state.
- The real DOM and `localStorage` are replaced by the fields of `Browser`.
