/** The regular expressions the two scanners have in common, written as `Re` values. */
module Patterns {
  import opened Chars
  import opened Regex

  const WS := One(CharClass(false, false, false, true, ""))
  const WS1 := Plus(WS)

  function Word(w: string): Re { Lit(w, false) }
  function AnyCase(w: string): Re { Lit(w, true) }

  // an address around an at sign, blanks allowed on both sides
  const EMAIL_LOCAL := One(CharClass(true, true, true, false, "_%+-"))
  const EMAIL_DOMAIN := One(CharClass(true, true, true, false, ".-"))
  const AT_SIGN := One(CharClass(false, false, false, false, "@\U{FF20}\U{FE6B}"))
  const EMAIL_AT_SIGN :=
    Cat(Plus(EMAIL_LOCAL), Cat(Star(WS), Cat(AT_SIGN, Cat(Star(WS), Plus(EMAIL_DOMAIN)))))

  // an address spoken as words: name at host dot com
  const ALNUM1 := Plus(One(ALNUMS))
  const DOT := Or(Word("."), Cat(WordEdge, Cat(AnyCase("dot"), WordEdge)))
  const TLD := Or(AnyCase("com"), Or(AnyCase("net"), Or(AnyCase("org"),
                  Or(AnyCase("edu"), Or(AnyCase("gov"), AnyCase("io"))))))
  const SPOKEN_DOT := Or(Cat(Star(WS), Cat(DOT, Star(WS))), Word("."))
  const SPOKEN_HOST := Cat(ALNUM1, Cat(SPOKEN_DOT, Cat(TLD, WordEdge)))
  const EMAIL_SPOKEN :=
    Cat(WordEdge, Cat(ALNUM1, Cat(WS1, Cat(AnyCase("at"), Cat(WS1, SPOKEN_HOST)))))

  // the words an address is announced with
  const ZIP_CODE := Cat(AnyCase("zip"), Cat(Star(WS), AnyCase("code")))
  const ADDRESS_WORD :=
    Or(AnyCase("street"), Or(AnyCase("avenue"), Or(AnyCase("boulevard"), Or(AnyCase("address"),
    Or(AnyCase("apartment"), Or(AnyCase("apt"), Or(AnyCase("suite"), Or(ZIP_CODE, AnyCase("zip")))))))))
  const ADDRESS_KEYWORD := Cat(WordEdge, Cat(ADDRESS_WORD, WordEdge))
  const ADDRESS_WINDOW_CHARS := 40

  // a capitalized word
  const CAP := Cat(One(CharClass(false, true, false, false, "")), Plus(One(CharClass(true, false, false, false, "'-"))))
  const NEXT_CAP := Cat(WS1, CAP)

  // the cues that strongly announce a name
  const MY_NAME_IS := Cat(Word("my"), Cat(WS1, Cat(Word("name"), Cat(WS1, Word("is")))))
  const ASK_FOR := Cat(Word("ask"), Cat(WS1, Word("for")))
  const SPEAKING_WITH := Cat(Word("speaking"), Cat(WS1, Word("with")))
  const STRONG_CUE := Cat(WordEdge, Cat(Or(MY_NAME_IS, Or(ASK_FOR, SPEAKING_WITH)), WS1))

  // the cues that only announce a full name
  const THIS_IS := Cat(Word("this"), Cat(WS1, Word("is")))
  const ITS := Cat(Word("it"), Cat(Opt(Word("'")), Word("s")))
  const WEAK_CUE := Cat(WordEdge, Cat(Or(THIS_IS, ITS), WS1))

  const STRONG_GREEDY_NAME := Cat(CAP, Star(NEXT_CAP))
  const WEAK_GREEDY_NAME := Cat(CAP, Plus(NEXT_CAP))
  const STRONG_NAME := CAP
  const WEAK_NAME := Cat(CAP, NEXT_CAP)

  lemma {:induction false} EndsLike(a: Re, b: Re)
    requires SolidEnd(b)
    ensures SolidEnd(Cat(a, b))
  {}

  lemma {:induction false} PlusIsSolid(cls: CharClass)
    requires !cls.Has(' ')
    ensures SolidStart(Plus(One(cls))) && SolidEnd(Plus(One(cls)))
  {
    assert SolidStart(One(cls)) && SolidEnd(One(cls));
  }

  lemma {:induction false} EmailAtSignIsSolid()
    ensures SolidStart(EMAIL_AT_SIGN) && SolidEnd(EMAIL_AT_SIGN)
  {
    PlusIsSolid(EMAIL_LOCAL.cls);
    PlusIsSolid(EMAIL_DOMAIN.cls);
    EndsLike(Star(WS), Plus(EMAIL_DOMAIN));
    EndsLike(AT_SIGN, Cat(Star(WS), Plus(EMAIL_DOMAIN)));
    EndsLike(Star(WS), Cat(AT_SIGN, Cat(Star(WS), Plus(EMAIL_DOMAIN))));
    EndsLike(Plus(EMAIL_LOCAL), Cat(Star(WS), Cat(AT_SIGN, Cat(Star(WS), Plus(EMAIL_DOMAIN)))));
  }

  lemma {:induction false} TldIsSolid()
    ensures SolidEnd(Cat(TLD, WordEdge))
  {
    assert SolidEnd(AnyCase("io")) && SolidEnd(AnyCase("gov")) && SolidEnd(AnyCase("edu"));
    assert SolidEnd(AnyCase("org")) && SolidEnd(AnyCase("net")) && SolidEnd(AnyCase("com"));
    assert SolidEnd(Or(AnyCase("gov"), AnyCase("io")));
    assert SolidEnd(Or(AnyCase("edu"), Or(AnyCase("gov"), AnyCase("io"))));
    assert SolidEnd(Or(AnyCase("org"), Or(AnyCase("edu"), Or(AnyCase("gov"), AnyCase("io")))));
  }

  lemma {:induction false} EmailSpokenIsSolid()
    ensures SolidStart(EMAIL_SPOKEN) && SolidEnd(EMAIL_SPOKEN)
  {
    TldIsSolid();
    PlusIsSolid(ALNUMS);
    EndsLike(SPOKEN_DOT, Cat(TLD, WordEdge));
    EndsLike(ALNUM1, Cat(SPOKEN_DOT, Cat(TLD, WordEdge)));
    EndsLike(WS1, SPOKEN_HOST);
    var at := Cat(AnyCase("at"), Cat(WS1, SPOKEN_HOST));
    EndsLike(AnyCase("at"), Cat(WS1, SPOKEN_HOST));
    EndsLike(WS1, at);
    EndsLike(ALNUM1, Cat(WS1, at));
    EndsLike(WordEdge, Cat(ALNUM1, Cat(WS1, at)));
    assert SolidStart(Cat(ALNUM1, Cat(WS1, at)));
  }

  lemma {:induction false} NamesAreSolid()
    ensures SolidStart(STRONG_GREEDY_NAME) && SolidEnd(STRONG_GREEDY_NAME)
    ensures SolidStart(WEAK_GREEDY_NAME) && SolidEnd(WEAK_GREEDY_NAME)
    ensures SolidStart(STRONG_NAME) && SolidStart(WEAK_NAME)
  {
    PlusIsSolid(CharClass(true, false, false, false, "'-"));
    assert SolidStart(CAP) && SolidEnd(CAP);
    EndsLike(WS1, CAP);
    assert SolidEnd(Plus(NEXT_CAP));
  }
}
