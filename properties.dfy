/**
 * What the router promises across handlers: which rule wins, what each
 * button of each screen leads to, and which of those buttons are dead.
 */
module RouterProperties {
  import opened Strings
  import opened Dicts
  import opened Keyboards
  import opened Router

  /** A press that the bot answers with something and without raising. */
  predicate Live(effects: seq<Effect>) {
    effects != [] && forall i :: 0 <= i < |effects| ==> !effects[i].Crash?
  }

  /** Text that does not start with `/` is not the `/start` command. */
  lemma NotStartCommand(text: string)
    requires text != [] && text[0] != '/'
    ensures !IsStartCommand(text)
  {
  }

  /** The five labels of the bottom keyboard are pairwise different. */
  lemma LabelsDiffer()
    ensures Topik1Label !in [LettersLabel, BooksLabel]
    ensures Topik2Label !in [LettersLabel, BooksLabel, Topik1Label]
    ensures PremiumLabel !in [LettersLabel, BooksLabel, Topik1Label, Topik2Label]
    ensures BooksLabel != LettersLabel
  {
    assert Topik1Label[0] == '📚' && Topik2Label[0] == '📚';
    assert LettersLabel[0] == '☀' && BooksLabel[0] == '📖' && PremiumLabel[0] == '💎';
    assert Topik1Label[|Topik1Label| - 1] == '1' && Topik2Label[|Topik2Label| - 1] == '2';
  }

  /** `back_to_main` starts with neither `harf_` nor `book_`. */
  lemma BackToMainIsPlain()
    ensures !StartsWith("back_to_main", "harf_") && !StartsWith("back_to_main", "book_")
  {
    DiffersWithin("back_to_main", "harf_", 0);
    DiffersWithin("back_to_main", "book_", 1);
  }

  // ---------------------------------------------------------------------------
  // Letters

  /**
   * The letter menu reached from the bottom keyboard and the one reached by
   * the back button show the same text and buttons; the first is a new
   * message, the second an edit of the message that hosted the button.
   */
  lemma LetterMenuTwoWays(c: Contents, u: User, cfg: Config)
    ensures Route(Text(LettersLabel), c, cfg) == [SendNew(LetterPrompt, Inline(LetterKeyboard(c.letters)))]
    ensures Route(Callback("back_to_letters", u), c, cfg) == [Edit(LetterPrompt, LetterKeyboard(c.letters))]
  {
    NotStartCommand(LettersLabel);
    DiffersWithin("back_to_letters", "harf_", 0);
  }

  /**
   * `harf_<key>` parses back to `<key>` exactly when the key has no `harf_`
   * of its own.
   */
  lemma LetterKeyRoundTrip(key: string)
    ensures LetterKey("harf_" + key) == key <==> !Contains(key, "harf_")
  {
    ReplaceAllAfterPrefix("harf_", key, "");
    if Contains(key, "harf_") {
      LetterKeyLosesInnerHarf(key);
    }
  }

  /**
   * A `harf_` inside the key is removed along with the prefix, so the parsed
   * key comes out strictly shorter than the key the button was made from.
   */
  lemma LetterKeyLosesInnerHarf(key: string)
    requires Contains(key, "harf_")
    ensures |LetterKey("harf_" + key)| < |key|
  {
    ReplaceAllAfterPrefix("harf_", key, "");
  }

  /**
   * Pressing the button of the `i`-th letter edits the message to that
   * letter's heading and text, with the single button back to the letters.
   */
  lemma LetterButtonOpensItsLetter(c: Contents, i: nat, u: User, cfg: Config)
    requires i < |c.letters|
    requires !Contains(c.letters[i].0, "harf_")
    ensures Route(Callback(LetterKeyboard(c.letters)[i].data, u), c, cfg)
         == [Edit("☀️ " + c.letters[i].0 + "\n" + c.letters[i].1, [BackToLettersButton])]
  {
    var key := c.letters[i].0;
    assert LetterKeyboard(c.letters)[i].data == "harf_" + key;
    assert ("harf_" + key)[..5] == "harf_";
    LetterKeyRoundTrip(key);
    GetAt(c.letters, i);
  }

  /** A letter key missing from the dictionary gets the "not found" text, not an error. */
  lemma MissingLetterFallsBack(key: string, c: Contents, u: User, cfg: Config)
    requires !Contains(key, "harf_") && key !in Keys(c.letters)
    ensures Route(Callback("harf_" + key, u), c, cfg)
         == [Edit("☀️ " + key + "\n" + NotFoundText, [BackToLettersButton])]
  {
    assert ("harf_" + key)[..5] == "harf_";
    LetterKeyRoundTrip(key);
  }

  /** Every button of the letter menu is live: the letters and the back button. */
  lemma LetterKeyboardLive(c: Contents, u: User, cfg: Config)
    ensures forall b :: b in LetterKeyboard(c.letters) ==> Live(Route(Callback(b.data, u), c, cfg))
  {
    forall b | b in LetterKeyboard(c.letters)
      ensures Live(Route(Callback(b.data, u), c, cfg))
    {
      if b != BackToMainButton {
        var i :| 0 <= i < |c.letters| && b == LetterKeyboard(c.letters)[i];
        assert b.data == "harf_" + c.letters[i].0;
        assert ("harf_" + c.letters[i].0)[..5] == "harf_";
      } else {
        BackToMainLive(c, u, cfg);
      }
    }
  }

  /** The back-to-main button answers, whichever handler takes it. */
  lemma BackToMainLive(c: Contents, u: User, cfg: Config)
    ensures Live(Route(Callback("back_to_main", u), c, cfg))
  {
    BackToMainIsPlain();
  }

  // ---------------------------------------------------------------------------
  // Books

  /**
   * A `book_` callback always reaches the book handler, ahead of the grammar
   * keys; the handler accepts exactly the four table codes and raises a
   * `KeyError` for any other suffix.
   */
  lemma BookCallbackRouting(data: string, c: Contents, u: User, cfg: Config)
    requires StartsWith(data, "book_")
    ensures data !in BookCodes ==> Route(Callback(data, u), c, cfg) == [Crash(KeyError(data))]
    ensures data in BookCodes ==>
      Route(Callback(data, u), c, cfg)
      == [Edit(data[5..] + GrammarMenuSuffix, GrammarKeyboard(BookGrammars(data, c).value))]
  {
    assert data[0] == 'b';
    assert data[1] == 'o';
  }

  /**
   * Each button of the book menu opens the grammar menu of the table entry
   * at the same place (`BookTableOrder` names those entries).
   */
  lemma BookButtonsOpenTheirBook(c: Contents, u: User, cfg: Config)
    ensures forall i :: 0 <= i < 4 ==>
      Route(Callback(BookKeyboard[i].data, u), c, cfg)
      == [Edit(BookCodes[i][5..] + GrammarMenuSuffix, GrammarKeyboard(BookGrammars(BookCodes[i], c).value))]
  {
    forall i | 0 <= i < 4
      ensures Route(Callback(BookKeyboard[i].data, u), c, cfg)
           == [Edit(BookCodes[i][5..] + GrammarMenuSuffix, GrammarKeyboard(BookGrammars(BookCodes[i], c).value))]
    {
      BookButtonOpens(i, c, u, cfg);
    }
  }

  /** The table's entries, in the order of the book menu, are the books 1A, 1B, 2A and 2B. */
  lemma BookTableOrder(c: Contents)
    ensures BookCodes[0][5..] == "1A" && BookGrammars(BookCodes[0], c) == Some(c.grammar1A)
    ensures BookCodes[1][5..] == "1B" && BookGrammars(BookCodes[1], c) == Some(c.grammar1B)
    ensures BookCodes[2][5..] == "2A" && BookGrammars(BookCodes[2], c) == Some(c.grammar2A)
    ensures BookCodes[3][5..] == "2B" && BookGrammars(BookCodes[3], c) == Some(c.grammar2B)
  {
  }

  lemma BookButtonOpens(i: nat, c: Contents, u: User, cfg: Config)
    requires i < 4
    ensures Route(Callback(BookKeyboard[i].data, u), c, cfg)
         == [Edit(BookCodes[i][5..] + GrammarMenuSuffix, GrammarKeyboard(BookGrammars(BookCodes[i], c).value))]
  {
    assert BookKeyboard[i].data == BookCodes[i];
    BookCallbackRouting(BookCodes[i], c, u, cfg);
  }

  /** Every button of the book menu is live. */
  lemma BookKeyboardLive(c: Contents, u: User, cfg: Config)
    ensures forall i :: 0 <= i < |BookKeyboard| ==> Live(Route(Callback(BookKeyboard[i].data, u), c, cfg))
  {
    forall i | 0 <= i < |BookKeyboard|
      ensures Live(Route(Callback(BookKeyboard[i].data, u), c, cfg))
    {
      var d := BookKeyboard[i].data;
      if i < 4 {
        assert d == BookCodes[i] && d[..5] == "book_";
        BookCallbackRouting(d, c, u, cfg);
      } else {
        BackToMainLive(c, u, cfg);
      }
    }
  }

  /**
   * `show_books_menu` sends the book menu as a new message, the same one the
   * bottom keyboard's book label sends; it does not edit. A collection key
   * spelled `show_books_menu` would take the press instead.
   */
  lemma ShowBooksMenuSendsNew(c: Contents, u: User, cfg: Config)
    requires !IsGrammarKey("show_books_menu", c)
    ensures Route(Callback("show_books_menu", u), c, cfg) == [SendNew(BooksPrompt, Inline(BookKeyboard))]
    ensures Route(Text(BooksLabel), c, cfg) == Route(Callback("show_books_menu", u), c, cfg)
  {
    DiffersWithin("show_books_menu", "harf_", 0);
    DiffersWithin("show_books_menu", "book_", 0);
    NotStartCommand(LettersLabel);
    NotStartCommand(BooksLabel);
  }

  // ---------------------------------------------------------------------------
  // Grammar points

  /**
   * A callback that no earlier rule takes and that is a key of one of the
   * books opens that grammar point: its text from the last book holding it
   * (never the "not found" text) and one back button.
   */
  lemma GrammarKeyRouting(key: string, c: Contents, u: User, cfg: Config)
    requires !StartsWith(key, "harf_") && !StartsWith(key, "book_") && key != "back_to_letters"
    requires IsGrammarKey(key, c)
    ensures Route(Callback(key, u), c, cfg)
         == [Edit(LastBookText(key, c).value, [Button(BackLabel, GrammarBackData(key))])]
  {
  }

  /** A callback that no rule takes changes nothing: the bot sends no answer at all. */
  lemma UnmatchedCallbackIsIgnored(data: string, c: Contents, u: User, cfg: Config)
    requires !StartsWith(data, "harf_") && !StartsWith(data, "book_")
    requires !IsGrammarKey(data, c)
    requires data !in ["back_to_letters", "show_books_menu", "back_to_main"]
    ensures Route(Callback(data, u), c, cfg) == []
  {
  }

  /**
   * What the `i`-th button of a book's grammar menu leads to. A key that no
   * earlier rule shadows opens its grammar point; a key starting with `harf_`
   * is taken by the letter handler, and one starting with `book_` by the book
   * handler.
   */
  lemma GrammarButtonRouting(data: string, c: Contents, i: nat, u: User, cfg: Config)
    requires data in BookCodes
    requires i < |BookGrammars(data, c).value|
    ensures var key := BookGrammars(data, c).value[i].0;
      && GrammarKeyboard(BookGrammars(data, c).value)[i].data == key
      && IsGrammarKey(key, c)
      && (!StartsWith(key, "harf_") && !StartsWith(key, "book_") && key != "back_to_letters" ==>
            Route(Callback(key, u), c, cfg)
            == [Edit(LastBookText(key, c).value, [Button(BackLabel, GrammarBackData(key))])])
      && (StartsWith(key, "harf_") ==> Route(Callback(key, u), c, cfg) == ShowLetterInfo(key, c))
      && (StartsWith(key, "book_") ==> Route(Callback(key, u), c, cfg) == ShowGrammarMenu(key, c))
      && (key == "back_to_letters" ==>
            Route(Callback(key, u), c, cfg) == [Edit(LetterPrompt, LetterKeyboard(c.letters))])
  {
    var g := BookGrammars(data, c).value;
    var key := g[i].0;
    assert Keys(g)[i] == key;
    assert IsGrammarKey(key, c);
    if !StartsWith(key, "harf_") && !StartsWith(key, "book_") && key != "back_to_letters" {
      GrammarKeyRouting(key, c, u, cfg);
    }
    if StartsWith(key, "book_") {
      BookCallbackRouting(key, c, u, cfg);
    }
    if key == "back_to_letters" {
      LetterMenuTwoWays(c, u, cfg);
    }
  }

  /**
   * The back button of every grammar point is dead: its callback starts with
   * `book_`, so the book handler takes it, but its lower-cased code is none of
   * the table's codes, so the lookup raises `KeyError`.
   */
  lemma GrammarBackIsDead(key: string, c: Contents, u: User, cfg: Config)
    ensures GrammarBackData(key) !in BookCodes
    ensures Route(Callback(GrammarBackData(key), u), c, cfg) == [Crash(KeyError(GrammarBackData(key)))]
  {
    GrammarBackNotInTable(key);
    BookCallbackRouting(GrammarBackData(key), c, u, cfg);
  }

  /** Every code of the book table has a capital letter where the back code has none. */
  lemma GrammarBackNotInTable(key: string)
    ensures GrammarBackData(key) !in BookCodes
  {
    var back := GrammarBackData(key);
    assert |back| != 7 || !IsUpper(back[6]);
    assert forall b :: b in BookCodes ==> |b| == 7 && IsUpper(b[6]);
  }

  /** For instance, the back button of a `1A:` grammar point sends `book_1a`. */
  lemma GrammarBackLowerCases()
    ensures GrammarBackData("1A:-ga") == "book_1a"
  {
    assert BeforeFirst("1A:-ga", ':') == "1A";
  }

  /** The callback as written is the corrected one with its code lower-cased. */
  lemma AsWrittenIsLoweredCorrected(key: string)
    ensures GrammarBackData(key) == "book_" + Lower(CorrectedGrammarBackData(key)[5..])
  {
    var code := BeforeFirst(key, ':');
    assert ("book_" + code)[5..] == code;
  }

  /** For any key whose prefix is a book's code, the callback as written is that code lower-cased. */
  lemma AsWrittenNamesLoweredBook(key: string, data: string)
    requires data in BookCodes && BeforeFirst(key, ':') == data[5..]
    ensures GrammarBackData(key) == "book_" + Lower(data[5..])
  {
  }

  /**
   * With the corrected back code, the round trip holds through dispatch: the
   * book's callback shows its grammar menu; the `i`-th button of that menu
   * sends a grammar point's key whose prefix names the book; pressing it
   * opens the grammar point with a back button that sends the book's own
   * callback again, so pressing back shows the same grammar menu.
   */
  lemma CorrectedBackRoundTrip(data: string, c: Contents, i: nat, u: User)
    requires data in BookCodes
    requires i < |BookGrammars(data, c).value|
    requires BeforeFirst(BookGrammars(data, c).value[i].0, ':') == data[5..]
    ensures var g := BookGrammars(data, c).value;
      RouteCallbackCorrected(data, u, c) == [Edit(data[5..] + GrammarMenuSuffix, GrammarKeyboard(g))]
    ensures var g := BookGrammars(data, c).value;
      GrammarKeyboard(g)[i].data == g[i].0
    ensures var key := BookGrammars(data, c).value[i].0;
      RouteCallbackCorrected(key, u, c) == [Edit(LastBookText(key, c).value, [Button(BackLabel, data)])]
  {
    CorrectedGrammarPointOpens(data, c, i, u);
    assert StartsWith(data, "book_");
  }

  /**
   * Under the corrected dispatcher, the `i`-th button of a book's grammar menu
   * sends its key, and pressing it opens that grammar point: its text from
   * the last book holding it, and a back button that sends the book's code.
   */
  lemma CorrectedGrammarPointOpens(data: string, c: Contents, i: nat, u: User)
    requires data in BookCodes
    requires i < |BookGrammars(data, c).value|
    requires BeforeFirst(BookGrammars(data, c).value[i].0, ':') == data[5..]
    ensures var g := BookGrammars(data, c).value;
      GrammarKeyboard(g)[i].data == g[i].0
    ensures var key := BookGrammars(data, c).value[i].0;
      RouteCallbackCorrected(key, u, c) == [Edit(LastBookText(key, c).value, [Button(BackLabel, data)])]
  {
    var g := BookGrammars(data, c).value;
    var key := g[i].0;
    CorrectedBackNamesTheBook(key, data);
    assert GrammarKeyboard(g)[i] == GrammarButton(key);
    // The key starts with the book's digit, so no earlier handler takes it.
    assert key[0] == data[5] && (data[5] == '1' || data[5] == '2');
    DiffersWithin(key, "harf_", 0);
    DiffersWithin(key, "book_", 0);
    assert Keys(g)[i] == key;
    assert IsGrammarKey(key, c);
  }

  lemma CorrectedBackNamesTheBook(key: string, data: string)
    requires data in BookCodes && BeforeFirst(key, ':') == data[5..]
    ensures CorrectedGrammarBackData(key) == data
  {
    assert data == "book_" + data[5..];
  }

  /** The corrected back button of a grammar point whose prefix names a book is live. */
  lemma CorrectedGrammarBackIsLive(key: string, c: Contents, u: User, cfg: Config)
    requires "book_" + BeforeFirst(key, ':') in BookCodes
    ensures var back := ShowGrammarCorrected(key, c)[0].buttons[0].data;
      Live(Route(Callback(back, u), c, cfg))
  {
    var back := CorrectedGrammarBackData(key);
    BookCallbackRouting(back, c, u, cfg);
  }

  // ---------------------------------------------------------------------------
  // Back to the main menu

  /**
   * `back_to_main` sends the main menu with the bottom keyboard to the user
   * first and then deletes the message that hosted the button; it never edits.
   * A collection key spelled `back_to_main` would take the press instead.
   */
  lemma BackToMainSendsThenDeletes(c: Contents, u: User, cfg: Config)
    requires !IsGrammarKey("back_to_main", c)
    ensures Route(Callback("back_to_main", u), c, cfg)
         == [SendToUser(u.id, MainMenuPrompt, MenuKeyboard(MainMenuLabels)), DeleteHost]
    ensures forall i :: 0 <= i < |Route(Callback("back_to_main", u), c, cfg)| ==>
      !Route(Callback("back_to_main", u), c, cfg)[i].Edit?
  {
    BackToMainIsPlain();
  }

  // ---------------------------------------------------------------------------
  // The bottom keyboard

  /** `/start`, alone or with a payload, sends the welcome text with the bottom keyboard. */
  lemma StartSendsMainMenu(payload: string, c: Contents, cfg: Config)
    ensures Route(Text("/start"), c, cfg) == [SendNew(WelcomeText, MenuKeyboard(MainMenuLabels))]
    ensures Route(Text("/start " + payload), c, cfg) == [SendNew(WelcomeText, MenuKeyboard(MainMenuLabels))]
  {
    var t := "/start " + payload;
    assert t[..6] == "/start" && t[6] == ' ';
  }

  /**
   * Each of the five bottom-keyboard labels gets exactly one answer; the
   * premium label's is the tariff text as a new message, with no keyboard.
   */
  lemma MenuLabelsAnswered(c: Contents, cfg: Config)
    ensures |Route(Text(Topik1Label), c, cfg)| == 1
    ensures |Route(Text(Topik2Label), c, cfg)| == 1
    ensures |Route(Text(BooksLabel), c, cfg)| == 1
    ensures |Route(Text(LettersLabel), c, cfg)| == 1
    ensures Route(Text(PremiumLabel), c, cfg) == [SendNew(PremiumInfoText, NoKeyboard)]
  {
    LabelsDiffer();
    NotStartCommand(Topik1Label);
    NotStartCommand(Topik2Label);
    NotStartCommand(BooksLabel);
    NotStartCommand(LettersLabel);
    NotStartCommand(PremiumLabel);
  }

  /** The TOPIK 1 label answers with a reply that holds the configured link, without preview. */
  lemma Topik1RepliesWithLink(c: Contents, cfg: Config)
    ensures Route(Text(Topik1Label), c, cfg) == [Reply(Topik1Text(cfg.topikLink), true)]
    ensures Contains(Route(Text(Topik1Label), c, cfg)[0].text, cfg.topikLink)
  {
    LabelsDiffer();
    NotStartCommand(Topik1Label);
  }

  /** The TOPIK 2 label answers with a reply that holds its own configured link, without preview. */
  lemma Topik2RepliesWithLink(c: Contents, cfg: Config)
    ensures Route(Text(Topik2Label), c, cfg) == [Reply(Topik2Text(cfg.topik2Link), true)]
    ensures Contains(Route(Text(Topik2Label), c, cfg)[0].text, cfg.topik2Link)
  {
    LabelsDiffer();
    NotStartCommand(Topik2Label);
  }

  /** Text that is neither `/start` nor one of the five labels gets no answer. */
  lemma OtherTextIgnored(text: string, c: Contents, cfg: Config)
    requires !IsStartCommand(text) && text !in MainMenuLabels
    ensures Route(Text(text), c, cfg) == []
  {
  }

  // ---------------------------------------------------------------------------
  // Payment receipts

  /** `premium` in any mix of cases, anywhere in the caption, passes the test. */
  lemma PremiumInAnyCase(before: string, word: string, after: string)
    requires Lower(word) == "premium"
    ensures AsksForPremium(before + word + after)
  {
    LowerAppend(before + word, after);
    LowerAppend(before, word);
    assert "premium"[..7] == "premium";
    ContainsInfix(Lower(before), Lower(word), Lower(after), "premium");
  }

  /** Lower-casing the caption beforehand does not change the test's verdict. */
  lemma CaptionTestIgnoresCase(caption: string)
    ensures AsksForPremium(Lower(caption)) == AsksForPremium(caption)
  {
    LowerIdempotent(caption);
  }

  /** A caption shorter than `premium` never passes the test. */
  lemma ShortCaptionFails(caption: string)
    requires |caption| < 7
    ensures !AsksForPremium(caption)
  {
    ContainsNeedsRoom(Lower(caption), "premium");
  }

  /**
   * A receipt captioned "Premium to'lov" is forwarded to the admin, summary
   * first and photo second, and the sender gets the group link; one captioned
   * "hello" only gets a reply asking for the right caption.
   */
  lemma ReceiptScenarios(ids: seq<string>, c: Contents, u: User, cfg: Config)
    requires ids != []
    ensures Route(Photo(Some("Premium to'lov"), ids, u), c, cfg)
         == [AdminText(cfg.adminId, AdminSummary(u)),
             AdminPhoto(cfg.adminId, ids[|ids| - 1], "Premium to'lov"),
             Reply(ReceiptAcceptedText(cfg.premiumGroupLink), false)]
    ensures Route(Photo(Some("hello"), ids, u), c, cfg) == [Reply(AskForCaptionText, false)]
  {
    PremiumCaptionPasses();
    PremiumReceiptForwarded("Premium to'lov", ids, c, u, cfg);
    ShortCaptionFails("hello");
    OtherReceiptRefused("hello", ids, c, u, cfg);
  }

  /**
   * A photo whose caption passes the test produces exactly three effects, in
   * order: the summary to the admin, the largest photo size with the original
   * caption to the admin, and a reply with the group link.
   */
  lemma PremiumReceiptForwarded(caption: string, ids: seq<string>, c: Contents, u: User, cfg: Config)
    requires ids != [] && AsksForPremium(caption)
    ensures Route(Photo(Some(caption), ids, u), c, cfg)
         == [AdminText(cfg.adminId, AdminSummary(u)),
             AdminPhoto(cfg.adminId, ids[|ids| - 1], caption),
             Reply(ReceiptAcceptedText(cfg.premiumGroupLink), false)]
    ensures Contains(ReceiptAcceptedText(cfg.premiumGroupLink), cfg.premiumGroupLink)
  {
    ContainsSuffix("✅ Chek qabul qilindi!\nGuruh: ", cfg.premiumGroupLink);
  }

  /** Any other caption gets one reply and sends nothing to the admin. */
  lemma OtherReceiptRefused(caption: string, ids: seq<string>, c: Contents, u: User, cfg: Config)
    requires !AsksForPremium(caption)
    ensures Route(Photo(Some(caption), ids, u), c, cfg) == [Reply(AskForCaptionText, false)]
  {
  }

  lemma PremiumCaptionPasses()
    ensures AsksForPremium("Premium to'lov")
  {
    assert "Premium to'lov"[0..7] == "Premium";
    assert Lower("Premium") == "premium";
    assert LowerMatchAt("Premium to'lov", 0, "premium");
  }

  /** The admin's summary names the sender and gives an id that reads back as theirs. */
  lemma AdminSummaryIdentifiesSender(u: User)
    requires u.id >= 0
    ensures Contains(AdminSummary(u), u.fullName)
    ensures Contains(AdminSummary(u), NatToDecimal(u.id))
    ensures DecimalValue(NatToDecimal(u.id)) == u.id
  {
    var head := "💳 Yangi premium foydalanuvchi:\n👤 ";
    var tail := "\n🆔 " + NatToDecimal(u.id);
    assert u.fullName == u.fullName + [];
    ContainsPrefix(u.fullName, []);
    ContainsInfix(head, u.fullName, tail, u.fullName);
    assert AdminSummary(u) == head + u.fullName + tail;
    ContainsSuffix(head + u.fullName + "\n🆔 ", NatToDecimal(u.id));
    assert AdminSummary(u) == (head + u.fullName + "\n🆔 ") + NatToDecimal(u.id);
    DecimalRoundTrip(u.id);
  }
}
