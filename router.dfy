/**
 * The bot's router: every inbound update (a text message, a button press, a
 * photo) is matched against the handlers in the order they are registered,
 * and the first one that matches yields the messages the bot sends, edits
 * and deletes. Those outbound actions are values of `Effect`; nothing here
 * talks to the network.
 */
module Router {
  import opened Strings
  import opened Dicts
  import opened Keyboards

  datatype User = User(id: int, fullName: string)

  datatype Event =
    | Text(text: string)
    | Callback(data: string, from: User)
    | Photo(caption: Option<string>, photoFileIds: seq<string>, from: User)

  /** The Python exceptions a handler can raise, ending it where it stands. */
  datatype Fault =
    | KeyError(key: string)     // a subscript of a dict with a missing key
    | NoneCaption               // `.lower()` on a photo without a caption
    | NoPhotoSize               // `[-1]` on an empty list of photo sizes

  datatype Effect =
    | SendNew(text: string, keyboard: Keyboard)          // a new message in the same chat
    | SendToUser(userId: int, text: string, keyboard: Keyboard)
    | Reply(text: string, previewDisabled: bool)         // a reply quoting the user's message
    | Edit(text: string, buttons: seq<Button>)           // replaces the message that hosted the button
    | DeleteHost                                         // deletes the message that hosted the button
    | AdminText(chatId: int, text: string)
    | AdminPhoto(chatId: int, fileId: string, caption: string)
    | Crash(fault: Fault)

  /** The static lesson text: the letter dictionary and the four grammar books. */
  datatype Contents = Contents(
    letters: Dict,
    grammar1A: Dict,
    grammar1B: Dict,
    grammar2A: Dict,
    grammar2B: Dict)

  /** Settings read from the environment at start-up. */
  datatype Config = Config(adminId: int, premiumGroupLink: string, topikLink: string, topik2Link: string)

  const WelcomeText := "Assalomu alaykum!\n한국어 o‘rgatadigan botga xush kelibsiz.\nQuyidagi menydan foydalaning:"
  const LetterPrompt := "Quyidagi harflardan birini tanlang:"
  const NotFoundText := "Ma’lumot topilmadi"
  const BooksPrompt := "Qaysi kitobni tanlaysiz?"
  const GrammarMenuSuffix := " grammatikalaridan birini tanlang:"
  const MainMenuPrompt := "⬅️ Asosiy menyu:"
  const AskForCaptionText := "❗ Iltimos, captionda 'PREMIUM' deb yozing."
  const PremiumInfoText :=
    "💎 PREMIUM DARS TARIFI\n\n"
    + "📌 Imkoniyatlar:\n"
    + "🔹 Har ikki kunda jonli dars\n"
    + "🔹 Yopiq premium materiallar\n"
    + "🔹 0 dan koreys tilini o‘rganish\n"
    + "🔹 Savol-javoblar uchun guruh\n\n"
    + "💰 Narxi: 30 000 so‘m / oy\n"
    + "💳 To‘lov karta:\n5614 6818 1030 9850\n\n"
    + "📅 To‘lov cheki bilan 'PREMIUM' deb yuboring!"

  /** The TOPIK 1 welcome, ending with the configured link. */
  function Topik1Text(link: string): (r: string)
    ensures Contains(r, link)
  {
    var intro := "📘 TOPIK 1 sayohatiga xush kelibsiz!\n"
      + "Bu yerda asoslar mustahkamlanadi, kelajakdagi yutuqlaringiz shu yerda boshlanadi! 💪\n\n"
      + "🚀 Boshlash: ";
    ContainsSuffix(intro, link);
    intro + link
  }

  /** The TOPIK 2 welcome, ending with the configured link. */
  function Topik2Text(link: string): (r: string)
    ensures Contains(r, link)
  {
    var intro := "📚 Siz endi TOPIK 2 \"jang maydoni\"dasiz!\n"
      + "Tayyor bo‘ling — bilimlar hujumi boshlanmoqda 😄\n\n"
      + "🚀 Qo‘shiling: ";
    ContainsSuffix(intro, link);
    intro + link
  }

  function AdminSummary(u: User): string {
    "💳 Yangi premium foydalanuvchi:\n👤 " + u.fullName + "\n🆔 " + IntToDecimal(u.id)
  }

  function ReceiptAcceptedText(link: string): string {
    "✅ Chek qabul qilindi!\nGuruh: " + link
  }

  // ---------------------------------------------------------------------------
  // Text messages from the bottom keyboard

  /** The `/start` command: the message's first word, up to a space, is `/start`. */
  predicate IsStartCommand(text: string) {
    StartsWith(text, "/start") && (|text| == 6 || text[6] == ' ')
  }

  /** The welcome message, carrying the bottom keyboard with its five labels. */
  function StartHandler(): (r: seq<Effect>)
    ensures |r| == 1 && r[0].SendNew? && r[0].keyboard == MenuKeyboard(MainMenuLabels)
  {
    [SendNew(WelcomeText, MenuKeyboard(MainMenuLabels))]
  }

  /** The letter menu as a new message: a button per letter, in order, then back. */
  function ShowLetterMenu(c: Contents): (r: seq<Effect>)
    ensures |r| == 1 && r[0].SendNew? && r[0].text == LetterPrompt && r[0].keyboard.Inline?
    ensures Labels(r[0].keyboard.buttons) == Keys(c.letters) + [BackLabel]
  {
    LetterKeyboardShape(c.letters);
    [SendNew(LetterPrompt, Inline(LetterKeyboard(c.letters)))]
  }

  /**
   * The book menu as a new message: one button per code of the book table,
   * in the table's order, then back to the main menu.
   */
  function ShowBooks(): (r: seq<Effect>)
    ensures |r| == 1 && r[0].SendNew? && r[0].keyboard.Inline? && |r[0].keyboard.buttons| == 5
    ensures forall i :: 0 <= i < 4 ==> r[0].keyboard.buttons[i].data == BookCodes[i]
    ensures r[0].keyboard.buttons[4] == BackToMainButton
  {
    [SendNew(BooksPrompt, Inline(BookKeyboard))]
  }

  /**
   * Text handlers in registration order. A text message never raises and
   * gets at most one answer, a new message or a reply; it never reaches the
   * admin.
   */
  function RouteText(text: string, c: Contents, cfg: Config): (r: seq<Effect>)
    ensures |r| <= 1
    ensures forall i :: 0 <= i < |r| ==> r[i].SendNew? || r[i].Reply?
  {
    if IsStartCommand(text) then StartHandler()
    else if text == LettersLabel then ShowLetterMenu(c)
    else if text == BooksLabel then ShowBooks()
    else if text == Topik1Label then [Reply(Topik1Text(cfg.topikLink), true)]
    else if text == Topik2Label then [Reply(Topik2Text(cfg.topik2Link), true)]
    else if text == PremiumLabel then [SendNew(PremiumInfoText, NoKeyboard)]
    else []
  }

  // ---------------------------------------------------------------------------
  // Button presses

  /** The letter a `harf_` callback names: every `harf_` in it removed. */
  function LetterKey(data: string): (r: string)
    ensures !Contains(data, "harf_") ==> r == data
    ensures StartsWith(data, "harf_") ==> |r| <= |data| - 5
  {
    if StartsWith(data, "harf_") then
      assert data == "harf_" + data[5..];
      ReplaceAllAfterPrefix("harf_", data[5..], "");
      ReplaceAll(data, "harf_", "")
    else
      ReplaceAll(data, "harf_", "")
  }

  function LetterDetailText(key: string, letters: Dict): string {
    "☀️ " + key + "\n" + GetOr(letters, key, NotFoundText)
  }

  function ShowLetterInfo(data: string, c: Contents): (r: seq<Effect>)
    ensures |r| == 1 && r[0].Edit? && r[0].buttons == [BackToLettersButton]
    ensures StartsWith(r[0].text, "☀️ " + LetterKey(data) + "\n")
  {
    var key := LetterKey(data);
    ContainsPrefix("☀️ " + key + "\n", GetOr(c.letters, key, NotFoundText));
    [Edit(LetterDetailText(key, c.letters), [BackToLettersButton])]
  }

  /** The letter menu again, as an edit of the message that hosted the button. */
  function BackToLetters(c: Contents): (r: seq<Effect>)
    ensures |r| == 1 && r[0].Edit? && r[0].text == LetterPrompt
    ensures Labels(r[0].buttons) == Keys(c.letters) + [BackLabel]
  {
    LetterKeyboardShape(c.letters);
    [Edit(LetterPrompt, LetterKeyboard(c.letters))]
  }

  /** The callbacks the book table accepts. */
  const BookCodes := ["book_1A", "book_1B", "book_2A", "book_2B"]

  /** The four-entry table from callback to grammar book; `None` is a missing key. */
  function BookGrammars(data: string, c: Contents): (r: Option<Dict>)
    ensures r.Some? <==> data in BookCodes
    ensures r.Some? ==> |data| == 7 && StartsWith(data, "book_")
  {
    if data == "book_1A" then Some(c.grammar1A)
    else if data == "book_1B" then Some(c.grammar1B)
    else if data == "book_2A" then Some(c.grammar2A)
    else if data == "book_2B" then Some(c.grammar2B)
    else None
  }

  function ShowGrammarMenu(data: string, c: Contents): (r: seq<Effect>)
    ensures data !in BookCodes ==> r == [Crash(KeyError(data))]
    ensures data in BookCodes ==>
      r == [Edit(data[5..] + GrammarMenuSuffix, GrammarKeyboard(BookGrammars(data, c).value))]
  {
    match BookGrammars(data, c)
    case None => [Crash(KeyError(data))]
    case Some(grammars) =>
      assert |data| == 7 && data == "book_" + data[5..];
      ReplaceAllAfterPrefix("book_", data[5..], "");
      ContainsNeedsRoom(data[5..], "book_");
      assert ReplaceAll(data, "book_", "") == data[5..];
      [Edit(ReplaceAll(data, "book_", "") + GrammarMenuSuffix, GrammarKeyboard(grammars))]
  }

  /** Membership in the concatenated key lists: a key of any one of the books. */
  predicate IsGrammarKey(data: string, c: Contents)
    ensures IsGrammarKey(data, c) <==>
      data in Keys(c.grammar1A) || data in Keys(c.grammar1B)
      || data in Keys(c.grammar2A) || data in Keys(c.grammar2B)
  {
    data in Keys(c.grammar1A) + Keys(c.grammar1B) + Keys(c.grammar2A) + Keys(c.grammar2B)
  }

  /**
   * The text a grammar key reads when later books override earlier ones: the
   * last of 2B, 2A, 1B, 1A that holds the key decides.
   */
  function LastBookText(key: string, c: Contents): (r: Option<string>)
    ensures r.Some? <==> IsGrammarKey(key, c)
  {
    if key in Keys(c.grammar2B) then Get(c.grammar2B, key)
    else if key in Keys(c.grammar2A) then Get(c.grammar2A, key)
    else if key in Keys(c.grammar1B) then Get(c.grammar1B, key)
    else Get(c.grammar1A, key)
  }

  /**
   * `{**grammar_1A, **grammar_1B, **grammar_2A, **grammar_2B}`: every key
   * reads the text of the last book holding it, and only the books' keys
   * read anything.
   */
  function AllGrammars(c: Contents): (r: seq<Entry>)
    ensures forall k :: Get(r, k) == LastBookText(k, c)
  {
    var m1 := Extend([], c.grammar1A);
    var m2 := Extend(m1, c.grammar1B);
    var m3 := Extend(m2, c.grammar2A);
    var m4 := Extend(m3, c.grammar2B);
    assert forall k :: Get(m4, k) == LastBookText(k, c) by {
      forall k
        ensures Get(m4, k) == LastBookText(k, c)
      {
        ExtendGet([], c.grammar1A, k);
        ExtendGet(m1, c.grammar1B, k);
        ExtendGet(m2, c.grammar2A, k);
        ExtendGet(m3, c.grammar2B, k);
      }
    }
    m4
  }

  /** The back callback of a grammar point: `book_` and its lower-cased prefix before `:`. */
  function GrammarBackData(key: string): (r: string)
    ensures StartsWith(r, "book_")
    ensures forall i :: 5 <= i < |r| ==> !IsUpper(r[i])
  {
    var code := Lower(BeforeFirst(key, ':'));
    assert ("book_" + code)[..5] == "book_";
    "book_" + code
  }

  /**
   * A grammar point: its text from the merged books, or the "not found" text,
   * with one back button sending `GrammarBackData`.
   */
  function ShowGrammar(key: string, c: Contents): (r: seq<Effect>)
    ensures |r| == 1 && r[0].Edit? && r[0].buttons == [Button(BackLabel, GrammarBackData(key))]
    ensures IsGrammarKey(key, c) ==> r[0].text == LastBookText(key, c).value
    ensures !IsGrammarKey(key, c) ==> r[0].text == NotFoundText
  {
    [Edit(GetOr(AllGrammars(c), key, NotFoundText), [Button(BackLabel, GrammarBackData(key))])]
  }

  /**
   * The back callback the grammar detail evidently means to send: `book_` and
   * the key's prefix before `:` as it stands, which is how the book menu names
   * the book. Unlike `GrammarBackData`, it is accepted by the book table.
   */
  function CorrectedGrammarBackData(key: string): (r: string)
    ensures StartsWith(r, "book_")
    ensures ':' !in r[5..]
  {
    var code := BeforeFirst(key, ':');
    assert ("book_" + code)[..5] == "book_" && ("book_" + code)[5..] == code;
    "book_" + code
  }

  /** The grammar detail with the corrected back button. */
  function ShowGrammarCorrected(key: string, c: Contents): (r: seq<Effect>)
    ensures |r| == 1 && r[0].Edit? && r[0].buttons == [Button(BackLabel, CorrectedGrammarBackData(key))]
    ensures IsGrammarKey(key, c) ==> r[0].text == LastBookText(key, c).value
    ensures !IsGrammarKey(key, c) ==> r[0].text == NotFoundText
  {
    [Edit(GetOr(AllGrammars(c), key, NotFoundText), [Button(BackLabel, CorrectedGrammarBackData(key))])]
  }

  /** The book menu's own back button: the book menu again, as a new message. */
  function ShowBooksMenu(): (r: seq<Effect>)
    ensures r == ShowBooks() && r[0].SendNew?
  {
    ShowBooks()
  }

  /** The main menu sent to the user's own chat, then the hosting message deleted. */
  function BackToMain(u: User): (r: seq<Effect>)
    ensures |r| == 2 && r[0].SendToUser? && r[0].userId == u.id
    ensures r[0].keyboard == MenuKeyboard(MainMenuLabels) && r[1] == DeleteHost
  {
    [SendToUser(u.id, MainMenuPrompt, MenuKeyboard(MainMenuLabels)), DeleteHost]
  }

  /**
   * Callback handlers in registration order; the first whose test holds runs.
   * A press gets at most two effects and never reaches the admin; the only
   * way it raises is a `book_` callback that is not in the book table.
   */
  function RouteCallback(data: string, u: User, c: Contents): (r: seq<Effect>)
    ensures |r| <= 2
    ensures forall i :: 0 <= i < |r| ==> !r[i].AdminText? && !r[i].AdminPhoto?
    ensures forall i :: 0 <= i < |r| && r[i].Crash? ==>
      r == [Crash(KeyError(data))] && StartsWith(data, "book_") && data !in BookCodes
  {
    if StartsWith(data, "harf_") then ShowLetterInfo(data, c)
    else if data == "back_to_letters" then BackToLetters(c)
    else if StartsWith(data, "book_") then ShowGrammarMenu(data, c)
    else if IsGrammarKey(data, c) then ShowGrammar(data, c)
    else if data == "show_books_menu" then ShowBooksMenu()
    else if data == "back_to_main" then BackToMain(u)
    else []
  }

  /**
   * The callback dispatcher with the corrected grammar detail: it runs the
   * same handlers in the same order, and only a grammar point's screen
   * differs, whose back button sends `CorrectedGrammarBackData`. Every
   * callback the grammar handler does not take is answered as before.
   */
  function RouteCallbackCorrected(data: string, u: User, c: Contents): (r: seq<Effect>)
    ensures (StartsWith(data, "harf_") || data == "back_to_letters" || StartsWith(data, "book_")
             || !IsGrammarKey(data, c)) ==> r == RouteCallback(data, u, c)
  {
    if StartsWith(data, "harf_") then ShowLetterInfo(data, c)
    else if data == "back_to_letters" then BackToLetters(c)
    else if StartsWith(data, "book_") then ShowGrammarMenu(data, c)
    else if IsGrammarKey(data, c) then ShowGrammarCorrected(data, c)
    else if data == "show_books_menu" then ShowBooksMenu()
    else if data == "back_to_main" then BackToMain(u)
    else []
  }

  // ---------------------------------------------------------------------------
  // Photos

  /**
   * The caption test: `premium` anywhere in the lower-cased caption, that is,
   * some stretch of the caption spells `premium` in some mix of cases.
   */
  predicate AsksForPremium(caption: string)
    ensures AsksForPremium(caption) <==> exists i :: LowerMatchAt(caption, i, "premium")
  {
    LowerContains(caption, "premium");
    Contains(Lower(caption), "premium")
  }

  function HandleCheck(caption: Option<string>, photoFileIds: seq<string>, u: User, cfg: Config): (r: seq<Effect>)
    ensures caption.None? ==> r == [Crash(NoneCaption)]
    ensures caption.Some? && !AsksForPremium(caption.value) ==>
      r == [Reply(AskForCaptionText, false)]
    ensures caption.Some? && AsksForPremium(caption.value) && photoFileIds != [] ==>
      r == [AdminText(cfg.adminId, AdminSummary(u)),
            AdminPhoto(cfg.adminId, photoFileIds[|photoFileIds| - 1], caption.value),
            Reply(ReceiptAcceptedText(cfg.premiumGroupLink), false)]
      && Contains(r[2].text, cfg.premiumGroupLink)
    ensures caption.Some? && AsksForPremium(caption.value) && photoFileIds == [] ==>
      r == [AdminText(cfg.adminId, AdminSummary(u)), Crash(NoPhotoSize)]
  {
    match caption
    case None => [Crash(NoneCaption)]
    case Some(text) =>
      if AsksForPremium(text) then
        [AdminText(cfg.adminId, AdminSummary(u))]
        + if photoFileIds == [] then [Crash(NoPhotoSize)]
          else
            ContainsSuffix("✅ Chek qabul qilindi!\nGuruh: ", cfg.premiumGroupLink);
            [AdminPhoto(cfg.adminId, photoFileIds[|photoFileIds| - 1], text),
             Reply(ReceiptAcceptedText(cfg.premiumGroupLink), false)]
      else [Reply(AskForCaptionText, false)]
  }

  // ---------------------------------------------------------------------------

  /**
   * The whole dispatcher: what the bot does in answer to one update. A raise
   * ends the handler, so a `Crash` can only come last; only a photo reaches
   * the admin.
   */
  function Route(e: Event, c: Contents, cfg: Config): (r: seq<Effect>)
    ensures |r| <= 3
    ensures forall i :: 0 <= i < |r| - 1 ==> !r[i].Crash?
    ensures !e.Photo? ==> forall i :: 0 <= i < |r| ==> !r[i].AdminText? && !r[i].AdminPhoto?
  {
    match e
    case Text(text) => RouteText(text, c, cfg)
    case Callback(data, u) => RouteCallback(data, u, c)
    case Photo(caption, photos, u) => HandleCheck(caption, photos, u, cfg)
  }
}
