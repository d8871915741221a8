# Korean-lessons Telegram bot: navigation router, in Dafny

This project models the navigation core of a Telegram bot that serves Korean
learning material. The material is the Hangul letters and the grammar points of
the four Seoul National University course books 1A, 1B, 2A and 2B. The bot also
forwards premium payment receipts to an admin.

The model is one pure function,
`Router.Route(event, contents, config) -> seq<Effect>`. It takes one inbound
update and gives back what the bot does in answer, in order:

- **Events:** a text message, a button press carrying its callback string, or a
  photo with an optional caption.
- **Effects:** send a new message (with the bottom menu keyboard, an inline
  keyboard, or none), send to the user's own chat, reply, edit the message
  that hosted the pressed button, delete that message, send text or a photo to
  the admin, or `Crash` when the Python handler would raise.
- **Handlers:** they are tried in registration order and the first match wins.
  A callback that no handler takes gets no answer.
- **Content:** the letter dictionary and the four grammar dictionaries are
  parameters (`Router.Contents`). Each is an ordered sequence of `(key, text)`
  entries with distinct keys (`Dicts.Dict`), because the bot iterates over them
  in insertion order.
- **Configuration:** the admin id and the three links are parameters
  (`Router.Config`).

Files:

- `strings.dfy`: the Python string operations used (`startswith`, `in`,
  `replace`, `lower`, `split(":")[0]`, `str(int)`), with their properties.
- `dicts.dfy`: ordered dictionaries, lookup, assignment, and the `{**a, **b}`
  merge.
- `keyboards.dfy`: buttons and keyboards. It holds the two loops that build
  inline keyboards, as methods proved against the keyboard functions.
- `router.dfy`: the handlers and `Route`.
- `properties.dfy`: properties that span handlers. These cover which rule wins,
  where each button leads, and which buttons are dead.

### Behaviour worth noting

- `show_books_menu` (main.py:112-115) calls `show_books` (main.py:74-84).
  That handler answers with `message.answer`, so the book menu arrives as a
  new message below the old one. The old message is not edited.
- A callback that no handler's test accepts (main.py:56-166) gets no effect
  at all (`RouterProperties.UnmatchedCallbackIsIgnored`).
- The back button of a grammar point (main.py:107-108) never reaches a
  grammar menu. Pressing it always raises in the book table at main.py:89-94
  (see Findings).
- The four grammar dictionaries are merged at main.py:105. A key held by
  more than one book reads the text of the last of them
  (`Router.AllGrammars`).

## Model

| member | source | states |
|---|---|---|
| `Strings.DiffersWithin` | main.py:56 | `s.startswith(prefix)` fails as soon as the two differ at a position inside the prefix |
| `Strings.ContainsAt` | main.py:155 | where `sub in s` holds, a copy of `sub` starts at some position of `s` |
| `Strings.ContainsPrefix` | main.py:155 | a string holds each of its prefixes |
| `Strings.ContainsSuffix` | main.py:158 | a string holds whatever it ends with, so a text ending in a link holds the link |
| `Strings.ContainsNeedsRoom` | main.py:155 | no string holds a longer one |
| `Strings.ContainsInfix` | main.py:155 | `sub in s` carries over to any string that has `s` inside it |
| `Strings.ReplaceAll` | main.py:58 | `str.replace` leaves a string without the pattern unchanged; deleting the pattern never lengthens a string, and strictly shortens any string that holds it |
| `Strings.ReplaceAllAfterPrefix` | main.py:58 | removing the pattern from `pattern + s` drops the leading copy and goes on with `s` |
| `Strings.LowerChar` | main.py:107 | a capital becomes its own small letter (the same distance from `a` as from `A`); every other character stays as it is |
| `Strings.Lower` | main.py:107 | the lower-cased string has the same length, maps each character by `LowerChar` at its own place, and holds no capital |
| `Strings.LowerSlice` | main.py:155 | lower-casing a stretch of a string is the same stretch of the lower-cased string |
| `Strings.LowerMatchContains` | main.py:155 | a stretch of `s` that lower-cases to `word` puts `word` into `s.lower()` |
| `Strings.LowerIdempotent` | main.py:155 | lower-casing twice is the same as lower-casing once |
| `Strings.LowerAppend` | main.py:155 | lower-casing distributes over concatenation |
| `Strings.LowerContains` | main.py:155 | `word in s.lower()` holds exactly when some stretch of `s` spells `word` in some mix of cases (both directions) |
| `Strings.BeforeFirst` | main.py:107 | `key.split(":")[0]` is a prefix of the key without `:`; it is either the whole key or is followed by `:` |
| `Strings.NatToDecimal` | main.py:156 | the decimal text of the user id is a non-empty string of digits with no leading zero (`0` only for zero); `Strings.DecimalRoundTrip` gives its value |
| `Strings.IntToDecimal` | main.py:156 | a non-negative id is written as its digits; a negative one, and only a negative one, as `-` followed by the digits of its absolute value |
| `Strings.DecimalRoundTrip` | main.py:156 | the decimal text of an id reads back as that id |
| `Dicts.Keys` | main.py:51 | `d.keys()` lists the keys in insertion order, one per entry |
| `Dicts.Get` | main.py:59 | a lookup finds a text exactly for the dictionary's keys, and what it finds is an entry of the dictionary |
| `Dicts.GetOr` | main.py:59 | `dict.get(k, default)` gives the stored text for a key and the default otherwise |
| `Dicts.GetAt` | main.py:51-59 | every key listed by `keys()` looks up to its own text |
| `Dicts.Put` | main.py:105 | after `d[k] = v`, `k` reads `v` and every other key reads as before |
| `Dicts.PutKeys` | main.py:105 | assignment keeps an existing key's place and appends a new key last |
| `Dicts.ExtendGet` | main.py:105 | the contract of `Dicts.Extend`, the `**` merge: afterwards the merged dictionary's keys read its texts and all other keys read as before |
| `Keyboards.BuildLetterKeyboard` | main.py:50-53 | the loop over the letter keys builds exactly `Keyboards.LetterKeyboard` |
| `Keyboards.BuildGrammarKeyboard` | main.py:95-98 | the loop over a book's keys builds exactly `Keyboards.GrammarKeyboard` of that book |
| `Keyboards.LetterKeyboardShape` | main.py:50-53 | the letter menu shows the letter keys in order, each sending `harf_<key>`, and then the single `back_to_main` button |
| `Keyboards.HarfIsNotBackToMain` | main.py:50-53 | no letter button's callback is `back_to_main` |
| `Keyboards.GrammarKeyboardShape` | main.py:95-98 | a grammar menu shows the book's keys in order, each sending itself, and then `show_books_menu` |
| `Router.Topik1Text` | main.py:120-124 | the TOPIK 1 welcome holds the configured link |
| `Router.Topik2Text` | main.py:130-134 | the TOPIK 2 welcome holds its own configured link |
| `Router.StartHandler` | main.py:40-45 | `/start` answers with one new message carrying the bottom keyboard of the five labels |
| `Router.ShowLetterMenu` | main.py:48-54 | the letter menu is one new message whose buttons show the letter keys in order and then the back label |
| `Router.RouteText` | main.py:40-151 | a text message never raises and gets at most one answer, either a new message or a reply; it never reaches the admin |
| `Router.LetterKey` | main.py:58 | a callback without `harf_` passes through unchanged; removing the leading `harf_` takes at least its five characters off |
| `Router.ShowLetterInfo` | main.py:56-61 | a letter detail is one edit headed `☀️ <key>` with the single `back_to_letters` button |
| `Router.BackToLetters` | main.py:64-71 | the letter menu again, as one edit with the letter prompt and the letter keys in order and then the back label |
| `Router.ShowBooks` | main.py:74-84 | the book menu is one new message with five buttons: the table's four codes in the table's order, then `back_to_main` |
| `Router.BookGrammars` | main.py:89-94 | the book table accepts exactly `book_1A`, `book_1B`, `book_2A` and `book_2B`, each `book_` and two characters |
| `Router.ShowGrammarMenu` | main.py:86-99 | any other callback raises `KeyError`; an accepted code edits to `<code> grammatikalaridan birini tanlang:` over the book's grammar keyboard |
| `Router.IsGrammarKey` | main.py:102 | membership in the four concatenated key lists is being a key of any one book |
| `Router.LastBookText` | main.py:105 | the independent last-book-wins lookup answers exactly the keys of the four books |
| `Router.AllGrammars` | main.py:105 | the merged dictionary reads every key exactly as `Router.LastBookText` does, so it answers exactly the books' keys and a later book overrides an earlier one |
| `Router.GrammarBackData` | main.py:107-108 | the grammar-detail back callback starts with `book_` and has no capital letter after it; `RouterProperties.AsWrittenIsLoweredCorrected` ties it to the key |
| `Router.ShowGrammar` | main.py:102-110 | a grammar point is one edit with its text from the last book holding the key (the fallback text only for a key of no book) and one back button sending `GrammarBackData` |
| `Router.CorrectedGrammarBackData` | main.py:107-108 | the corrected back callback starts with `book_` and holds no `:` after it (`RouterProperties.CorrectedBackNamesTheBook` pins it to the book's code) |
| `Router.ShowGrammarCorrected` | main.py:102-110 | the grammar point as `Router.ShowGrammar` gives it, but with the corrected back callback |
| `Router.ShowBooksMenu` | main.py:112-115 | the book menu's back button sends the book menu again as a new message, exactly as the bottom-keyboard label does |
| `Router.BackToMain` | main.py:163-167 | two effects: the main menu with the bottom keyboard sent to the presser's own id, then the hosting message deleted |
| `Router.RouteCallback` | main.py:56-166 | a button press gets at most two effects and never reaches the admin; the only way it raises is a `book_` callback missing from the book table, and then it raises `KeyError` on that callback and does nothing else |
| `Router.RouteCallbackCorrected` | main.py:56-166 | the callback handlers in registration order with the corrected grammar-point screen; every callback the grammar handler does not take is answered exactly as by the code as written |
| `Router.AsksForPremium` | main.py:155 | the caption test holds exactly when some seven characters of the caption spell `premium` in some mix of cases |
| `Router.HandleCheck` | main.py:153-160 | a missing caption raises. A premium caption gives exactly the admin summary, the last photo with the caption, and the reply with the group link (no preview flag); without photos the photo step raises after the summary. Any other caption gives one reply and nothing for the admin |
| `Router.Route` | main.py:40-166 | one update gets at most three effects; a raise ends the handler, so a `Crash` can only come last; only a photo reaches the admin |
| `RouterProperties.LabelsDiffer` | main.py:31-38 | the five bottom-keyboard labels are pairwise different, so each reaches its own handler |
| `RouterProperties.NotStartCommand` | main.py:40 | a text that does not start with `/` is not the `/start` command |
| `RouterProperties.BackToMainIsPlain` | main.py:56-166 | `back_to_main` starts with neither `harf_` nor `book_`, so neither of those handlers takes it |
| `RouterProperties.LetterMenuTwoWays` | main.py:48-70 | the label and `back_to_letters` give the same text and buttons, one as a new message and one as an edit |
| `RouterProperties.LetterKeyRoundTrip` | main.py:56-58 | `harf_<key>` parses back to `<key>` if and only if the key holds no `harf_` |
| `RouterProperties.LetterKeyLosesInnerHarf` | main.py:58 | when the key itself holds `harf_`, `replace` removes that copy too, so the parsed key is strictly shorter than the key |
| `RouterProperties.LetterButtonOpensItsLetter` | main.py:50-61 | each letter button whose key holds no `harf_` edits to `☀️ <key>\n<text of that key>` with the single back button |
| `RouterProperties.MissingLetterFallsBack` | main.py:59-61 | a letter missing from the dictionary shows `Ma’lumot topilmadi` and does not raise |
| `RouterProperties.LetterKeyboardLive` | main.py:48-62 | every button of the letter menu gets an answer without raising |
| `RouterProperties.BackToMainLive` | main.py:163-166 | `back_to_main` gets an answer without raising, whichever handler takes it |
| `RouterProperties.BookCallbackRouting` | main.py:86-99 | every `book_` callback goes to the book handler ahead of the grammar keys. Exactly the four table codes are accepted; any other raises `KeyError` |
| `RouterProperties.BookButtonsOpenTheirBook` | main.py:76-99 | each book button opens the grammar menu of the table entry at its own place |
| `RouterProperties.BookButtonOpens` | main.py:76-99 | the book button at place `i` opens the grammar menu of the `i`-th table entry |
| `RouterProperties.BookTableOrder` | main.py:78-94 | in the book menu's order, the table's entries are the books 1A, 1B, 2A and 2B, titled `1A`, `1B`, `2A`, `2B` |
| `RouterProperties.BookKeyboardLive` | main.py:74-100 | every button of the book menu gets an answer without raising |
| `RouterProperties.ShowBooksMenuSendsNew` | main.py:112-115 | `show_books_menu` sends the same book menu as the bottom-keyboard label, as a new message, unless a grammar key shadows it |
| `RouterProperties.GrammarKeyRouting` | main.py:102-109 | a grammar key that no earlier rule takes edits to its last-book text with one back button |
| `RouterProperties.UnmatchedCallbackIsIgnored` | main.py:56-166 | a callback that no handler's test accepts produces no effect |
| `RouterProperties.GrammarButtonRouting` | main.py:95-109 | each grammar-menu button sends its key, which opens its grammar point unless an earlier handler takes it: a key starting with `harf_` goes to the letter handler, one starting with `book_` to the book handler, and one spelled `back_to_letters` to the letter-menu handler, which edits to the letter menu |
| `RouterProperties.GrammarBackNotInTable` | main.py:89-108 | the lower-cased back callback is never one of the table's codes |
| `RouterProperties.GrammarBackIsDead` | main.py:86-108 | pressing any grammar point's back button always raises `KeyError` |
| `RouterProperties.GrammarBackLowerCases` | main.py:107 | the back button of a `1A:` grammar point sends `book_1a` |
| `RouterProperties.AsWrittenIsLoweredCorrected` | main.py:107-108 | for every key, the callback as written is `book_` followed by the corrected callback's code lower-cased, so the two differ only by `.lower()` |
| `RouterProperties.AsWrittenNamesLoweredBook` | main.py:89-108 | for every key whose text before `:` is a book's code, the callback as written is `book_` plus that code lower-cased |
| `RouterProperties.CorrectedBackNamesTheBook` | main.py:107-108 | the corrected back callback of a key with a book's prefix is that book's code |
| `RouterProperties.CorrectedGrammarPointOpens` | main.py:95-108 | for a book code and the `i`-th key of its book whose text before `:` is that book's code: under the corrected dispatcher, the `i`-th grammar-menu button sends that key and opens that grammar point, whose back button sends the book's code |
| `RouterProperties.CorrectedBackRoundTrip` | main.py:86-108 | for a book code and the `i`-th key of its book whose text before `:` is that book's code, through the corrected dispatcher: the book callback shows the grammar menu, the key's button opens the grammar point with its last-book text, and that point's back button sends the book's callback, which shows the same grammar menu again |
| `RouterProperties.CorrectedGrammarBackIsLive` | main.py:86-108 | the corrected back button of a key whose prefix names a book gets an answer without raising |
| `RouterProperties.BackToMainSendsThenDeletes` | main.py:163-166 | when no grammar key is spelled `back_to_main`, that callback first sends the main menu to the user, then deletes the hosting message, and never edits |
| `RouterProperties.StartSendsMainMenu` | main.py:40-45 | `/start`, with or without a payload, sends the welcome text with the bottom keyboard |
| `RouterProperties.MenuLabelsAnswered` | main.py:31-151 | each bottom-keyboard label gets exactly one answer; the premium label's is the tariff text |
| `RouterProperties.Topik1RepliesWithLink` | main.py:118-125 | the TOPIK 1 label gets one reply, holding the configured link, with link preview disabled |
| `RouterProperties.Topik2RepliesWithLink` | main.py:128-135 | the TOPIK 2 label gets one reply, holding its own configured link, with link preview disabled |
| `RouterProperties.OtherTextIgnored` | main.py:40-151 | other text gets no answer |
| `RouterProperties.PremiumInAnyCase` | main.py:155 | `premium` in any mix of cases, anywhere in the caption, passes the test |
| `RouterProperties.CaptionTestIgnoresCase` | main.py:155 | lower-casing the caption first does not change the test's verdict |
| `RouterProperties.ShortCaptionFails` | main.py:155 | a caption shorter than `premium` fails the test |
| `RouterProperties.PremiumCaptionPasses` | main.py:155 | the caption `Premium to'lov` passes the test |
| `RouterProperties.PremiumReceiptForwarded` | main.py:153-158 | a passing caption on a photo with at least one size gives exactly three effects in order: the admin summary, the admin photo, and the reply with the group link |
| `RouterProperties.OtherReceiptRefused` | main.py:159-160 | any other caption gets one reply asking for `PREMIUM`, and nothing goes to the admin |
| `RouterProperties.ReceiptScenarios` | main.py:153-160 | `Premium to'lov` is forwarded to the admin; `hello` only gets the request for a correct caption |
| `RouterProperties.AdminSummaryIdentifiesSender` | main.py:156 | the admin summary holds the sender's full name and an id text that reads back as the sender's id |

## Findings

| source | as written | input that shows it | evidently intended | confidence | as-written member | corrected member |
|---|---|---|---|---|---|---|
| main.py:107-108 | the grammar-detail back callback is `book_` plus the lower-cased prefix, but the table at main.py:89-94 only holds `book_1A`, `book_1B`, `book_2A`, `book_2B` | a grammar key `1A:-ga` gives the back callback `book_1a`, and pressing it raises `KeyError` | `book_` plus the prefix as it stands (`book_1A`), which reopens the book's grammar menu | high; not executed | `RouterProperties.GrammarBackIsDead` | `RouterProperties.CorrectedBackRoundTrip` |

`Router.Route` keeps the code as written, because it models what the bot does.
The corrected back callback is `Router.CorrectedGrammarBackData`. It is used
by `Router.ShowGrammarCorrected` and the corrected dispatcher
`Router.RouteCallbackCorrected`. `RouterProperties.CorrectedBackRoundTrip` and
`RouterProperties.CorrectedGrammarBackIsLive` prove that it returns to the
book's grammar menu.

## Left out

- The aiogram `Bot` and `Dispatcher` objects and the asynchronous
  send/edit/delete calls (main.py:27-28 and each handler) are left out. They
  appear only as `Effect` values, so delivery failures are not modelled.
- `callback.answer()` acknowledgements and logging are left out. They change
  nothing the user sees in the chat.
- When a handler raises, the model ends its effect list with `Crash`. What
  aiogram then does with the exception (it logs it) is not modelled.
- Environment loading (main.py:11-23) is left out. The admin id and the links
  are the opaque parameters of `Router.Config`.
- Webhook setup and server start-up (main.py:170-186) are left out. They are
  transport only, and `on_shutdown` is referenced there without being defined.
- Row widths (main.py:50, 76, 95) are left out. They only lay buttons out in
  rows; a keyboard is modelled as its ordered sequence of buttons.
- The contents of the letter and grammar data modules are left out. Those
  modules are not part of this model; their dictionaries are the parameters in
  `Router.Contents`.
- `Strings.Lower` and `Strings.LowerChar`: map only the ASCII capitals `A`-`Z`. Python's `str.lower`
  also maps other Unicode capitals. For the `premium` test no other capital
  lower-cases to those ASCII letters alone. For the back callback the proof
  that it is dead needs only that `A` and `B` become `a` and `b`.
- `Router.IsStartCommand`: treats a text as the `/start` command when its first
  word, up to a space, is `/start`. aiogram's command filter also accepts other
  whitespace, any letter case and a `@botname` mention; that filter is not part
  of this model.
- Events are limited to text messages, callbacks with a string payload, and
  photos. Callbacks without data and other message types have no handler here
  and are not modelled.
