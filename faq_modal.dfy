/**
 * The help dialog of components/ui/faq-modal.tsx: its question-and-answer table,
 * the filter by search term and category, the set of expanded items and the
 * reset when the dialog opens.
 */
module FaqModal {
  import opened Text
  import opened Seqs

  datatype FaqItem = FaqItem(id: string, question: string, answer: string, category: string,
                             keywords: seq<string>, helpful: int, notHelpful: int)

  // ---------------------------------------------------------------------
  // The table
  //
  // mockFAQData. Each long text is written as pieces of a few words joined with +,
  // which keeps the proofs about single characters of the texts small.

  const Question1 := "How do I open a new " + "account?"
  const Answer1 :=
    "To open a new account, " + "click on \"Account " + "Opening\" from the main "
    + "menu. You'll need to " + "provide personal " + "information, upload your "
    + "ID document, and " + "complete the " + "verification process. "
    + "The entire process takes " + "about 10-15 minutes."
  const Faq1: FaqItem := FaqItem("1", Question1, Answer1, "Account Management",
                                  ["account", "open", "new", "create"], 45, 3)

  const Question2 := "How does the queue " + "management system work?"
  const Answer2 :=
    "Our virtual queue system " + "allows you to join a " + "queue remotely. Select "
    + "your branch and service " + "type, receive a queue " + "number, and track your "
    + "position in real-time. " + "You'll get SMS " + "notifications when it's "
    + "your turn."
  const Faq2: FaqItem := FaqItem("2", Question2, Answer2, "Queue Management",
                                  ["queue", "wait", "branch", "appointment"], 38, 2)

  const Question3 := "What banking services " + "are available through " + "the app?"
  const Answer3 :=
    "You can check your " + "balance, transfer money, " + "pay bills, view "
    + "transaction history, and " + "access various banking " + "services through our "
    + "USSD-style interface. " + "All services are " + "available 24/7."
  const Faq3: FaqItem := FaqItem("3", Question3, Answer3, "Banking Services",
                                  ["services", "balance", "transfer", "bills", "ussd"], 52, 1)

  const Question4 := "Is my personal " + "information secure?"
  const Answer4 :=
    "Yes, we use bank-grade " + "security including " + "end-to-end encryption, "
    + "multi-factor " + "authentication, and " + "secure PIN protection. "
    + "Your data is protected " + "according to " + "international banking "
    + "security standards."
  const Faq4: FaqItem := FaqItem("4", Question4, Answer4, "Security",
                                  ["security", "safe", "encryption", "protection"], 67, 0)

  const Question5 := "What documents do I need " + "for account opening?"
  const Answer5 :=
    "You need a valid " + "government-issued ID " + "(passport, national ID, "
    + "or driver's license), " + "proof of address, and " + "optionally, proof of "
    + "income. All documents " + "can be uploaded as " + "photos through the app."
  const Faq5: FaqItem := FaqItem("5", Question5, Answer5, "Account Management",
                                  ["documents", "id", "passport", "requirements"], 41, 4)

  const Question6 := "How long does account " + "approval take?"
  const Answer6 :=
    "Account approval " + "typically takes 1-3 " + "business days. You'll "
    + "receive SMS " + "notifications about your " + "application status. In "
    + "some cases, additional " + "verification may be " + "required."
  const Faq6: FaqItem := FaqItem("6", Question6, Answer6, "Account Management",
                                  ["approval", "time", "processing", "verification"], 33, 2)

  const MockFaqData: seq<FaqItem> := [Faq1, Faq2, Faq3, Faq4, Faq5, Faq6]

  const AllCategories := "All"

  /** The category buttons of the dialog. */
  const Categories: seq<string> :=
    [AllCategories, "Account Management", "Queue Management", "Banking Services", "Security"]

  /** Every item of the table sits under one of the category buttons. */
  lemma CategoriesCoverTable()
    ensures forall i :: 0 <= i < |MockFaqData| ==> MockFaqData[i].category in Categories[1..]
  {
  }

  // ---------------------------------------------------------------------
  // Filtering

  /** The empty term matches everything; otherwise the lower-cased term must occur in the lower-cased question, answer or a keyword. */
  predicate MatchesSearch(item: FaqItem, term: string)
  {
    term == ""
      || Contains(Lower(item.question), Lower(term))
      || Contains(Lower(item.answer), Lower(term))
      || exists k :: 0 <= k < |item.keywords| && Contains(Lower(item.keywords[k]), Lower(term))
  }

  predicate MatchesCategory(item: FaqItem, category: string)
  {
    category == AllCategories || item.category == category
  }

  predicate Keep(term: string, category: string, item: FaqItem)
  {
    MatchesSearch(item, term) && MatchesCategory(item, category)
  }

  /** filteredFAQs, over any table. */
  function FilterFaqs(items: seq<FaqItem>, term: string, category: string): seq<FaqItem>
  {
    Filter(items, item => Keep(term, category, item))
  }

  /** The filter keeps the table's order and keeps exactly the items that match both the term and the category. */
  lemma FilterFaqsCorrect(items: seq<FaqItem>, term: string, category: string)
    ensures IsSubsequence(FilterFaqs(items, term, category), items)
    ensures forall x :: x in FilterFaqs(items, term, category) <==> x in items && Keep(term, category, x)
  {
    FilterIsSubsequence(items, item => Keep(term, category, item));
    FilterCounts(items, item => Keep(term, category, item));
  }

  /** Search ignores ASCII case: terms that lower-case alike select the same items. */
  lemma SearchIgnoresCase(items: seq<FaqItem>, t1: string, t2: string, category: string)
    requires Lower(t1) == Lower(t2)
    ensures FilterFaqs(items, t1, category) == FilterFaqs(items, t2, category)
  {
    assert |t1| == |Lower(t1)| == |Lower(t2)| == |t2|;
    forall i | 0 <= i < |items| ensures Keep(t1, category, items[i]) == Keep(t2, category, items[i]) {
    }
    FilterPointwise(items, item => Keep(t1, category, item), item => Keep(t2, category, item));
  }

  /** With no term and the "All" category the whole table is shown, in order. */
  lemma EverythingShown()
    ensures FilterFaqs(MockFaqData, "", AllCategories) == MockFaqData
  {
    FilterKeepsAll(MockFaqData, item => Keep("", AllCategories, item));
  }

  /** The "Security" category with no term shows exactly the item with id "4". */
  lemma SecurityCategory()
    ensures FilterFaqs(MockFaqData, "", "Security") == [Faq4]
  {
    var p := item => Keep("", "Security", item);
    assert MockFaqData == [Faq1, Faq2, Faq3] + [Faq4] + [Faq5, Faq6];
    FilterAppend([Faq1, Faq2, Faq3] + [Faq4], [Faq5, Faq6], p);
    FilterAppend([Faq1, Faq2, Faq3], [Faq4], p);
    FilterKeepsNone([Faq1, Faq2, Faq3], p);
    FilterKeepsNone([Faq5, Faq6], p);
    FilterKeepsAll([Faq4], p);
  }

  /** Searching "account" shows "How do I open a new account?". */
  lemma AccountSearch()
    ensures Faq1 in FilterFaqs(MockFaqData, "account", AllCategories)
  {
    assert Lower("account") == "account";
    OccursAtWitness("account", "account", 0);
    assert Contains(Lower(Faq1.keywords[0]), Lower("account"));
    FilterFaqsCorrect(MockFaqData, "account", AllCategories);
  }

  /** No letter x or X in `s`. */
  predicate NoLetterX(s: string)
  {
    forall i :: 0 <= i < |s| ==> s[i] != 'x' && s[i] != 'X'
  }

  lemma NoLetterXAppend(a: string, b: string)
    requires NoLetterX(a) && NoLetterX(b)
    ensures NoLetterX(a + b)
  {
  }

  /** A text without the letter x never contains "nonexistent", whatever its case. */
  lemma LacksNonexistent(s: string)
    requires NoLetterX(s)
    ensures !Contains(Lower(s), Lower("nonexistent"))
  {
    assert Lower("nonexistent") == "nonexistent";
    LowerLacks(s, 'x');
    AbsentCharExcludes(Lower(s), "nonexistent", 'x');
  }

  /** An item none of whose texts holds the letter x does not match "nonexistent". */
  lemma ItemLacksNonexistent(item: FaqItem)
    requires NoLetterX(item.question) && NoLetterX(item.answer)
    requires forall k :: 0 <= k < |item.keywords| ==> NoLetterX(item.keywords[k])
    ensures !MatchesSearch(item, "nonexistent")
  {
    LacksNonexistent(item.question);
    LacksNonexistent(item.answer);
    forall k | 0 <= k < |item.keywords| ensures !Contains(Lower(item.keywords[k]), Lower("nonexistent")) {
      LacksNonexistent(item.keywords[k]);
    }
  }

  lemma Question1LacksX()
    ensures NoLetterX(Question1)
  {
    var t := "How do I open a new ";
    NoLetterXAppend(t, "account?");
    t := t + "account?";
  }

  lemma Answer1LacksX()
    ensures NoLetterX(Answer1)
  {
    var t := "To open a new account, ";
    NoLetterXAppend(t, "click on \"Account ");
    t := t + "click on \"Account ";
    NoLetterXAppend(t, "Opening\" from the main ");
    t := t + "Opening\" from the main ";
    NoLetterXAppend(t, "menu. You'll need to ");
    t := t + "menu. You'll need to ";
    NoLetterXAppend(t, "provide personal ");
    t := t + "provide personal ";
    NoLetterXAppend(t, "information, upload your ");
    t := t + "information, upload your ";
    NoLetterXAppend(t, "ID document, and ");
    t := t + "ID document, and ";
    NoLetterXAppend(t, "complete the ");
    t := t + "complete the ";
    NoLetterXAppend(t, "verification process. ");
    t := t + "verification process. ";
    NoLetterXAppend(t, "The entire process takes ");
    t := t + "The entire process takes ";
    NoLetterXAppend(t, "about 10-15 minutes.");
    t := t + "about 10-15 minutes.";
  }

  lemma Faq1LacksNonexistent()
    ensures !MatchesSearch(Faq1, "nonexistent")
  {
    Question1LacksX();
    Answer1LacksX();
    assert NoLetterX(Faq1.keywords[0]);
    assert NoLetterX(Faq1.keywords[1]);
    assert NoLetterX(Faq1.keywords[2]);
    assert NoLetterX(Faq1.keywords[3]);
    ItemLacksNonexistent(Faq1);
  }

  lemma Question2LacksX()
    ensures NoLetterX(Question2)
  {
    var t := "How does the queue ";
    NoLetterXAppend(t, "management system work?");
    t := t + "management system work?";
  }

  lemma Answer2LacksX()
    ensures NoLetterX(Answer2)
  {
    var t := "Our virtual queue system ";
    NoLetterXAppend(t, "allows you to join a ");
    t := t + "allows you to join a ";
    NoLetterXAppend(t, "queue remotely. Select ");
    t := t + "queue remotely. Select ";
    NoLetterXAppend(t, "your branch and service ");
    t := t + "your branch and service ";
    NoLetterXAppend(t, "type, receive a queue ");
    t := t + "type, receive a queue ";
    NoLetterXAppend(t, "number, and track your ");
    t := t + "number, and track your ";
    NoLetterXAppend(t, "position in real-time. ");
    t := t + "position in real-time. ";
    NoLetterXAppend(t, "You'll get SMS ");
    t := t + "You'll get SMS ";
    NoLetterXAppend(t, "notifications when it's ");
    t := t + "notifications when it's ";
    NoLetterXAppend(t, "your turn.");
    t := t + "your turn.";
  }

  lemma Faq2LacksNonexistent()
    ensures !MatchesSearch(Faq2, "nonexistent")
  {
    Question2LacksX();
    Answer2LacksX();
    assert NoLetterX(Faq2.keywords[0]);
    assert NoLetterX(Faq2.keywords[1]);
    assert NoLetterX(Faq2.keywords[2]);
    assert NoLetterX(Faq2.keywords[3]);
    ItemLacksNonexistent(Faq2);
  }

  lemma Question3LacksX()
    ensures NoLetterX(Question3)
  {
    var t := "What banking services ";
    NoLetterXAppend(t, "are available through ");
    t := t + "are available through ";
    NoLetterXAppend(t, "the app?");
    t := t + "the app?";
  }

  lemma Answer3LacksX()
    ensures NoLetterX(Answer3)
  {
    var t := "You can check your ";
    NoLetterXAppend(t, "balance, transfer money, ");
    t := t + "balance, transfer money, ";
    NoLetterXAppend(t, "pay bills, view ");
    t := t + "pay bills, view ";
    NoLetterXAppend(t, "transaction history, and ");
    t := t + "transaction history, and ";
    NoLetterXAppend(t, "access various banking ");
    t := t + "access various banking ";
    NoLetterXAppend(t, "services through our ");
    t := t + "services through our ";
    NoLetterXAppend(t, "USSD-style interface. ");
    t := t + "USSD-style interface. ";
    NoLetterXAppend(t, "All services are ");
    t := t + "All services are ";
    NoLetterXAppend(t, "available 24/7.");
    t := t + "available 24/7.";
  }

  lemma Faq3LacksNonexistent()
    ensures !MatchesSearch(Faq3, "nonexistent")
  {
    Question3LacksX();
    Answer3LacksX();
    assert NoLetterX(Faq3.keywords[0]);
    assert NoLetterX(Faq3.keywords[1]);
    assert NoLetterX(Faq3.keywords[2]);
    assert NoLetterX(Faq3.keywords[3]);
    assert NoLetterX(Faq3.keywords[4]);
    ItemLacksNonexistent(Faq3);
  }

  lemma Question4LacksX()
    ensures NoLetterX(Question4)
  {
    var t := "Is my personal ";
    NoLetterXAppend(t, "information secure?");
    t := t + "information secure?";
  }

  lemma Answer4LacksX()
    ensures NoLetterX(Answer4)
  {
    var t := "Yes, we use bank-grade ";
    NoLetterXAppend(t, "security including ");
    t := t + "security including ";
    NoLetterXAppend(t, "end-to-end encryption, ");
    t := t + "end-to-end encryption, ";
    NoLetterXAppend(t, "multi-factor ");
    t := t + "multi-factor ";
    NoLetterXAppend(t, "authentication, and ");
    t := t + "authentication, and ";
    NoLetterXAppend(t, "secure PIN protection. ");
    t := t + "secure PIN protection. ";
    NoLetterXAppend(t, "Your data is protected ");
    t := t + "Your data is protected ";
    NoLetterXAppend(t, "according to ");
    t := t + "according to ";
    NoLetterXAppend(t, "international banking ");
    t := t + "international banking ";
    NoLetterXAppend(t, "security standards.");
    t := t + "security standards.";
  }

  lemma Faq4LacksNonexistent()
    ensures !MatchesSearch(Faq4, "nonexistent")
  {
    Question4LacksX();
    Answer4LacksX();
    assert NoLetterX(Faq4.keywords[0]);
    assert NoLetterX(Faq4.keywords[1]);
    assert NoLetterX(Faq4.keywords[2]);
    assert NoLetterX(Faq4.keywords[3]);
    ItemLacksNonexistent(Faq4);
  }

  lemma Question5LacksX()
    ensures NoLetterX(Question5)
  {
    var t := "What documents do I need ";
    NoLetterXAppend(t, "for account opening?");
    t := t + "for account opening?";
  }

  lemma Answer5LacksX()
    ensures NoLetterX(Answer5)
  {
    var t := "You need a valid ";
    NoLetterXAppend(t, "government-issued ID ");
    t := t + "government-issued ID ";
    NoLetterXAppend(t, "(passport, national ID, ");
    t := t + "(passport, national ID, ";
    NoLetterXAppend(t, "or driver's license), ");
    t := t + "or driver's license), ";
    NoLetterXAppend(t, "proof of address, and ");
    t := t + "proof of address, and ";
    NoLetterXAppend(t, "optionally, proof of ");
    t := t + "optionally, proof of ";
    NoLetterXAppend(t, "income. All documents ");
    t := t + "income. All documents ";
    NoLetterXAppend(t, "can be uploaded as ");
    t := t + "can be uploaded as ";
    NoLetterXAppend(t, "photos through the app.");
    t := t + "photos through the app.";
  }

  lemma Faq5LacksNonexistent()
    ensures !MatchesSearch(Faq5, "nonexistent")
  {
    Question5LacksX();
    Answer5LacksX();
    assert NoLetterX(Faq5.keywords[0]);
    assert NoLetterX(Faq5.keywords[1]);
    assert NoLetterX(Faq5.keywords[2]);
    assert NoLetterX(Faq5.keywords[3]);
    ItemLacksNonexistent(Faq5);
  }

  lemma Question6LacksX()
    ensures NoLetterX(Question6)
  {
    var t := "How long does account ";
    NoLetterXAppend(t, "approval take?");
    t := t + "approval take?";
  }

  lemma Answer6LacksX()
    ensures NoLetterX(Answer6)
  {
    var t := "Account approval ";
    NoLetterXAppend(t, "typically takes 1-3 ");
    t := t + "typically takes 1-3 ";
    NoLetterXAppend(t, "business days. You'll ");
    t := t + "business days. You'll ";
    NoLetterXAppend(t, "receive SMS ");
    t := t + "receive SMS ";
    NoLetterXAppend(t, "notifications about your ");
    t := t + "notifications about your ";
    NoLetterXAppend(t, "application status. In ");
    t := t + "application status. In ";
    NoLetterXAppend(t, "some cases, additional ");
    t := t + "some cases, additional ";
    NoLetterXAppend(t, "verification may be ");
    t := t + "verification may be ";
    NoLetterXAppend(t, "required.");
    t := t + "required.";
  }

  lemma Faq6LacksNonexistent()
    ensures !MatchesSearch(Faq6, "nonexistent")
  {
    Question6LacksX();
    Answer6LacksX();
    assert NoLetterX(Faq6.keywords[0]);
    assert NoLetterX(Faq6.keywords[1]);
    assert NoLetterX(Faq6.keywords[2]);
    assert NoLetterX(Faq6.keywords[3]);
    ItemLacksNonexistent(Faq6);
  }

  /** Items none of which matches the term are all filtered out. */
  lemma NoMatchShowsNothing(items: seq<FaqItem>, term: string, category: string)
    requires forall i :: 0 <= i < |items| ==> !MatchesSearch(items[i], term)
    ensures FilterFaqs(items, term, category) == []
  {
    FilterKeepsNone(items, item => Keep(term, category, item));
  }

  lemma NonexistentFrontFindsNothing(category: string)
    ensures FilterFaqs([Faq1, Faq2, Faq3], "nonexistent", category) == []
  {
    Faq1LacksNonexistent();
    Faq2LacksNonexistent();
    Faq3LacksNonexistent();
    NoMatchShowsNothing([Faq1, Faq2, Faq3], "nonexistent", category);
  }

  lemma NonexistentBackFindsNothing(category: string)
    ensures FilterFaqs([Faq4, Faq5, Faq6], "nonexistent", category) == []
  {
    Faq4LacksNonexistent();
    Faq5LacksNonexistent();
    Faq6LacksNonexistent();
    NoMatchShowsNothing([Faq4, Faq5, Faq6], "nonexistent", category);
  }

  /** Searching "nonexistent" shows nothing, in any category. */
  lemma NonexistentFindsNothing(category: string)
    ensures FilterFaqs(MockFaqData, "nonexistent", category) == []
  {
    NonexistentFrontFindsNothing(category);
    NonexistentBackFindsNothing(category);
    assert MockFaqData == [Faq1, Faq2, Faq3] + [Faq4, Faq5, Faq6];
    FilterAppend([Faq1, Faq2, Faq3], [Faq4, Faq5, Faq6], item => Keep("nonexistent", category, item));
  }

  // ---------------------------------------------------------------------
  // The dialog's state

  /** `s` with `id` added when it was missing and removed when it was there. */
  function Toggled(s: set<string>, id: string): (r: set<string>)
    ensures id in r <==> id !in s
    ensures forall x :: x != id ==> (x in r <==> x in s)
  {
    if id in s then s - {id} else s + {id}
  }

  /** Toggling the same item twice restores the set. */
  lemma ToggleTwice(s: set<string>, id: string)
    ensures Toggled(Toggled(s, id), id) == s
  {
  }

  class FaqModalState {
    var searchTerm: string
    var selectedCategory: string
    var expandedItems: set<string>

    /** The items the dialog lists. */
    function Visible(): seq<FaqItem>
      reads this
    {
      FilterFaqs(MockFaqData, searchTerm, selectedCategory)
    }

    constructor()
      ensures searchTerm == "" && selectedCategory == AllCategories && expandedItems == {}
    {
      searchTerm := "";
      selectedCategory := AllCategories;
      expandedItems := {};
    }

    /** toggleExpanded: opens a closed item or closes an open one. */
    method ToggleExpanded(id: string)
      modifies this
      ensures expandedItems == Toggled(old(expandedItems), id)
      ensures searchTerm == old(searchTerm) && selectedCategory == old(selectedCategory)
    {
      var next := expandedItems;
      if id in next {
        next := next - {id};
      } else {
        next := next + {id};
      }
      expandedItems := next;
    }

    /** The effect run when `isOpen` changes: on opening, clear the search, select "All" and collapse every item. */
    method OnOpenChange(isOpen: bool)
      modifies this
      ensures isOpen ==> searchTerm == "" && selectedCategory == AllCategories && expandedItems == {}
      ensures isOpen ==> Visible() == MockFaqData
      ensures !isOpen ==> unchanged(this)
    {
      if isOpen {
        searchTerm := "";
        selectedCategory := AllCategories;
        expandedItems := {};
        EverythingShown();
      }
    }
  }
}
