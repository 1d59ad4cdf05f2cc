/**
 * The FAQ responder of fabrics/Services/FaqService.cs: a question is
 * trimmed, lower-cased and folded (أ, إ and آ to ا, ة to ه, ى to ي), then
 * tried against an ordered table of keyword rules; the first rule with a
 * keyword inside the question answers. When none does, the question is
 * handed to a language model, taken here as an opaque function.
 */
module Faq {
  import opened Nullable
  import opened Text

  // ---------------------------------------------------------------------
  // Normalisation
  // ---------------------------------------------------------------------

  /** `s.ToLower()`, for a culture's per-character lower-case map. */
  function Lower(s: string, lower: char -> char): (r: string)
    ensures |r| == |s| && forall i :: 0 <= i < |s| ==> r[i] == lower(s[i])
  {
    seq(|s|, i requires 0 <= i < |s| => lower(s[i]))
  }

  /** The letter-folding of one character. */
  function FoldChar(c: char): char {
    if c == 'أ' || c == 'إ' || c == 'آ' then 'ا'
    else if c == 'ة' then 'ه'
    else if c == 'ى' then 'ي'
    else c
  }

  /** Letter folding, character by character. */
  function Fold(s: string): string {
    seq(|s|, i requires 0 <= i < |s| => FoldChar(s[i]))
  }

  /** The question as the rules see it. */
  function Normalize(question: string, lower: char -> char): string {
    Fold(Lower(Trim(question), lower))
  }

  /** The chain of five `Replace` calls, as written. */
  function ReplaceChain(s: string): string {
    ReplaceAll(ReplaceAll(ReplaceAll(ReplaceAll(ReplaceAll(s, "أ", "ا"), "إ", "ا"), "آ", "ا"), "ة", "ه"), "ى", "ي")
  }

  /** The five replacements of single letters amount to folding every character on its own. */
  lemma FoldIsPerCharacter(s: string)
    ensures ReplaceChain(s) == Fold(s)
  {
    var s1 := ReplaceAll(s, "أ", "ا");
    ReplaceCharIsSubstitute(s, 'أ', 'ا');
    var s2 := ReplaceAll(s1, "إ", "ا");
    ReplaceCharIsSubstitute(s1, 'إ', 'ا');
    var s3 := ReplaceAll(s2, "آ", "ا");
    ReplaceCharIsSubstitute(s2, 'آ', 'ا');
    var s4 := ReplaceAll(s3, "ة", "ه");
    ReplaceCharIsSubstitute(s3, 'ة', 'ه');
    ReplaceCharIsSubstitute(s4, 'ى', 'ي');
  }

  /** The letters folding removes. */
  predicate Folded(c: char) {
    c == 'أ' || c == 'إ' || c == 'آ' || c == 'ة' || c == 'ى'
  }

  /**
   * A normalised question holds none of أ, إ, آ, ة, ى, whatever the
   * lower-case map; and, when lower-casing keeps white space and other
   * characters apart, it neither starts nor ends with white space.
   */
  lemma NormalizedForm(question: string, lower: char -> char)
    ensures forall c :: c in Normalize(question, lower) ==> !Folded(c)
    ensures (forall c :: !IsWhiteSpace(c) ==> !IsWhiteSpace(lower(c))) ==>
      var q := Normalize(question, lower);
      q == [] || (!IsWhiteSpace(q[0]) && !IsWhiteSpace(q[|q| - 1]))
  {
    TrimmedEnds(question);
  }

  /** A text that neither starts nor ends with white space is its own trim. */
  lemma TrimUntouched(s: string)
    requires s == [] || (!IsWhiteSpace(s[0]) && !IsWhiteSpace(s[|s| - 1]))
    ensures Trim(s) == s
  {
  }

  /** Folding a lower-cased character is stable under a second round of both. */
  lemma FoldLowerStable(c: char, lower: char -> char)
    requires forall c :: lower(lower(c)) == lower(c)
    requires lower('ا') == 'ا' && lower('ه') == 'ه' && lower('ي') == 'ي'
    ensures FoldChar(lower(FoldChar(lower(c)))) == FoldChar(lower(c))
  {
    var l := lower(c);
    assert lower(l) == l;
  }

  /**
   * Normalisation is idempotent when lower-casing is: normalising twice
   * gives what normalising once gave, provided the lower-case map keeps
   * white space and other characters apart and leaves the three letters
   * folding produces (ا, ه, ي) as they are.
   */
  lemma NormalizeIdempotent(question: string, lower: char -> char)
    requires forall c :: !IsWhiteSpace(c) ==> !IsWhiteSpace(lower(c))
    requires forall c :: lower(lower(c)) == lower(c)
    requires lower('ا') == 'ا' && lower('ه') == 'ه' && lower('ي') == 'ي'
    ensures Normalize(Normalize(question, lower), lower) == Normalize(question, lower)
  {
    var q := Normalize(question, lower);
    NormalizedForm(question, lower);
    TrimUntouched(q);
    FoldLowerFixed(Trim(question), lower);
  }

  /** Lower-casing and folding a second time changes nothing. */
  lemma FoldLowerFixed(t: string, lower: char -> char)
    requires forall c :: lower(lower(c)) == lower(c)
    requires lower('ا') == 'ا' && lower('ه') == 'ه' && lower('ي') == 'ي'
    ensures Fold(Lower(Fold(Lower(t, lower)), lower)) == Fold(Lower(t, lower))
  {
    var q := Fold(Lower(t, lower));
    forall i | 0 <= i < |q|
      ensures Fold(Lower(q, lower))[i] == q[i]
    {
      FoldLowerStable(t[i], lower);
    }
  }

  /** `w` folds letter by letter into `v`. */
  predicate FoldsTo(w: string, v: string) {
    |v| == |w| && forall j :: 0 <= j < |w| ==> FoldChar(w[j]) == v[j]
  }

  /**
   * Where the lower-cased, trimmed question holds a word, the normalised
   * question holds the word's folding `v` at the same place.
   */
  lemma FoldKeepsOccurrence(question: string, lower: char -> char, w: string, v: string, i: int)
    requires OccursAt(Lower(Trim(question), lower), w, i)
    requires FoldsTo(w, v)
    ensures OccursAt(Normalize(question, lower), v, i)
  {
    var t := Lower(Trim(question), lower);
    var q := Normalize(question, lower);
    forall j | 0 <= j < |w|
      ensures q[i + j] == v[j]
    {
      assert t[i + j] == w[j];
    }
    assert q[i..i + |w|] == v;
  }

  // ---------------------------------------------------------------------
  // The rules
  // ---------------------------------------------------------------------

  // The keywords of the `if` statements of `GetReplyAsync`, one constant per rule, in source order.
  const Rule0: seq<string> := ["نوع قماش ", "مناسب", "كيف اختار", " انواع الفماش"]  // line 34
  const Rule1: seq<string> := ["انواع الصوف", "الفرق بين انواع الصوف"]  // line 38
  const Rule2: seq<string> := ["السيلكا القطن", "للطقس البارد جداً"]  // line 43
  const Rule3: seq<string> := ["توازن ", "الدفء ", "خفيف ", "دافي"]  // line 47
  const Rule4: seq<string> := ["الخريف", "خريف"]  // line 51
  const Rule5: seq<string> := ["شتاء", "الشتاء"]  // line 55
  const Rule6: seq<string> := ["مساعده", " اختيار القماش المناسب"]  // line 59
  const Rule7: seq<string> := ["شحن", "المحافظات", "محافظه"]  // line 64
  const Rule8: seq<string> := ["قبل الاستلام", "معاينة"]  // line 68
  const Rule9: seq<string> := ["طرق الدفع", "ادفع"]  // line 72
  const Rule10: seq<string> := ["عند الاستلام", "الدفع عند الاستلام"]  // line 76
  const Rule11: seq<string> := ["استبدال", "استرجاع"]  // line 80
  const Rule12: seq<string> := [" واتساب", "التواصل", "واتس اب"]  // line 84
  const Rule13: seq<string> := ["أطمئن على طلبي بعد التوصيل"]  // line 88
  const Rule14: seq<string> := ["السلام", "مرحبا", "هاي"]  // line 92

  /** The rules' keywords, in the order `GetReplyAsync` tries them. */
  const RuleKeywords: seq<seq<string>> := [
    Rule0, Rule1, Rule2, Rule3, Rule4, Rule5, Rule6, Rule7,
    Rule8, Rule9, Rule10, Rule11, Rule12, Rule13, Rule14
  ]

  // The fixed answer of each rule, one constant per rule, in the same order.
  const Answer0: string := "لدينا تشكيلة متكاملة تلبي جميع احتياجاتك على مدار العام:\r\n\r\n· لفصل الصيف: السيلكا القطن الصيفي - خفيف الوزن وبارد على البشرة.\r\n· لفصل الخريف: السيلكا القطن الخريفي - متين يناسب تقلبات الطقس.\r\n· لفصل الشتاء: السيلكا القطن الشتوي - أكثر كثافة يوفر الدفء.\r\n· للدفء والرفاهية: أصوافنا المتميزة (كشمير هندي - إيطالي - جولدن تكس مصري).\r\n"  // line 35
  const Answer1: string := "كل نوع من أصوافنا عالم من الرفاهية:\r\n\r\n· صوف كشمير هندي: القطعة الفاخرة - يتميز بنعومة استثنائية ودفء لا يضاهى، وهو الاختيار الأمثل للشتاء والمناسبات الخاصة.\r\n· صوف إيطالي: ذوق رفيع وأناقة أوروبية - معروف بقصاته الممتازة وألوانه العصرية، مثالي للخريف وبدايات الشتاء.\r\n· صوف جولدن تكس مصري: الجودة المصرية بلمسة عالمية - يجمع بين المتانة واللمعان الطبيعي، يناسب جميع الفصول الباردة."  // line 39
  const Answer2: string := "بالتأكيد! السيلكا القطن الشتوي مصمم خصيصاً ليقدم دفئاً مريحاً مع الحفاظ على مظهر السيلكا الأنيق، مما يجعله اختياراً مثالياً للشتاء"  // line 44
  const Answer3: string := "إذا كنت تبحث عن هذا التوازن بالذات، نوصي بـ:\r\n\r\n· صوف الكشمير الهندي للدفء الفائق مع وزن خفيف جداً.\r\n· الصوف الإيطالي للخريف وبدايات الشتاء حيث الجو بارد لكن ليس قارس البرودة.\r\n\r\nنوع القماش الصيف الخريف الشتاء\r\nسيلكا قطن صيفي ✅ مثالي ⚠️ يمكن ارتداؤه ❌ غير مناسب\r\nسيلكا قطن خريفي ❌ ثقيل ✅ مثالي ⚠️ يمكن ارتداؤه\r\nسيلكا قطن شتوي ❌ حار ⚠️ دافئ ✅ مثالي\r\nصوف كشمير هندي ❌ ⚠️ للبرد الخفيف ✅ مثالي للبرد القارس\r\nصوف إيطالي ❌ ✅ مثالي ⚠️ للبرد المعتدل\r\nصوف جولدن تكس مصري ❌ ✅ مثالي ✅ ممتاز"  // line 48
  const Answer4: string := "لمناسبة خريفية، ننصحك باختيار:\r\n\r\n· السيلكا القطن الخريفي لمظهر أنيق مع توافق تام مع الطقس.\r\n· أو الصوف الإيطالي إذا أردت مظهراً كلاسيكياً فاخراً."  // line 52
  const Answer5: string := "الاختيار يعتمد على أولوياتك:\r\n\r\n· إذا كانت الأناقة والمظهر البراق هما priority: فالسيلكا القطن الشتوي هو اختيارك.\r\n· إذا كان الدفء والرفاهية المطلقة هما priority: فصوف الكشمير الهندي لا يضاهى.\r\n"  // line 56
  const Answer6: string := "بكل تأكيد! فريقنا متخصص في استشارات الأقمشة. اتصل بنا على [01148820088] أو راسلنا على الواتساب [01148820088] وسنختار لك معاً القماش المثالي بناءً على الموسم، المناسبة، ومقاسك بالضبط."  // line 60
  const Answer7: string := "نعم، نوفر الشحن إلى جميع محافظات مصر حتى باب البيت بفضل الله. متوسط وقت التوصيل يومان لمعظم المحافظات."  // line 65
  const Answer8: string := "للأسف لا يمكن المعاينة قبل الاستلام وذلك لحماية المنتج من التلف أو السرقة، حيث أن شركات الشحن تلغي مسؤوليتها في حالة الموافقة على المعاينة. لكن لا تقلق، نوفر لك ضمان الاستبدال أو الاسترجاع بعد استلام المنتج إذا لم يكن مطابقاً للتوقعات."  // line 69
  const Answer9: string := "نوفر عدة خيارات سهلة وآمنة للدفع:\r\n\r\n· 💳 الدفع عند الاستلام (مع رسوم عربون ١٠٪)\r\n· 📱 فودافون كاش\r\n· 📲 انستا باي"  // line 73
  const Answer10: string := "عند اختيار \"الدفع عند الاستلام\"، نحجز عربون ١٠٪ من إجمالي قيمة الطلبية قبل الشحن، ثم تقوم بدفع المبلغ المتبقي عند استلام الطلبية.\r\n"  // line 77
  const Answer11: string := "نعم، نوفر خدمة الاستبدال والاسترجاع مع ضمان جودة المنتج لضمان رضاك التام عن شرائك.\r\n"  // line 81
  const Answer12: string := "نعم، يمكنك التواصل معنا مباشرة على:\r\n01148820088\r\nفريق خدمة العملاء متاح لمساعدتك في أي استفسار."  // line 85
  const Answer13: string := "جميع طلباتنا مغلقة بشكل آمن ومحكم. في حال وجود أي استفسار عن المنتج بعد الاستلام، يمكنك التواصل معنا على الواتساب وسنقوم بمساعدتك على الفور."  // line 89
  const Answer14: string := "👋 أهلاً وسهلاً! أنا بوت خدمة العملاء، ممكن أساعدك في معرفة الأسعار أو المواعيد أو العنوان او المنتجات والاصناف المتاحه ؟"  // line 93

  /** The fixed answer of each rule, in the same order. */
  const RuleAnswers: seq<string> := [
    Answer0, Answer1, Answer2, Answer3, Answer4, Answer5, Answer6, Answer7,
    Answer8, Answer9, Answer10, Answer11, Answer12, Answer13, Answer14
  ]

  /** The table holds the fifteen rules in order. */
  lemma RuleTable()
    ensures |RuleKeywords| == 15
    ensures RuleKeywords[0] == Rule0 && RuleKeywords[1] == Rule1 && RuleKeywords[2] == Rule2
    ensures RuleKeywords[3] == Rule3 && RuleKeywords[4] == Rule4 && RuleKeywords[5] == Rule5
    ensures RuleKeywords[6] == Rule6 && RuleKeywords[7] == Rule7 && RuleKeywords[8] == Rule8
    ensures RuleKeywords[9] == Rule9 && RuleKeywords[10] == Rule10 && RuleKeywords[11] == Rule11
    ensures RuleKeywords[12] == Rule12 && RuleKeywords[13] == Rule13 && RuleKeywords[14] == Rule14
  {
  }

  /** Some keyword of the rule occurs in the question (`question.Contains(k1) || question.Contains(k2) || ...`). */
  predicate Matches(question: string, keywords: seq<string>) {
    exists i :: 0 <= i < |keywords| && Contains(question, keywords[i])
  }

  /** The position of the first rule that matches, or `|rules|` when none does. */
  function FirstMatch(question: string, rules: seq<seq<string>>): (k: nat)
    ensures k <= |rules|
    ensures k < |rules| ==> Matches(question, rules[k])
    ensures forall j :: 0 <= j < k ==> !Matches(question, rules[j])
    decreases |rules|
  {
    if |rules| == 0 then 0
    else if Matches(question, rules[0]) then 0
    else 1 + FirstMatch(question, rules[1..])
  }

  /** A rule with a keyword occurring in the question matches it. */
  lemma OccurrenceMatches(question: string, keywords: seq<string>, n: nat, i: int)
    requires n < |keywords| && OccursAt(question, keywords[n], i)
    ensures Matches(question, keywords)
  {
    ContainsIff(question, keywords[n]);
  }

  /**
   * What `GetReplyAsync` returns: the fixed answer of a rule, given by the
   * rule's position (its text is `RuleAnswers` at that position), or the
   * language model's answer together with the question it was asked.
   */
  datatype Reply = Canned(rule: nat) | FromModel(asked: string, answer: string)

  /**
   * `GetReplyAsync`. The model is asked, with the normalised question, exactly
   * when no rule matches, and its answer is returned unchanged; otherwise the
   * answer is that of the first rule that matches.
   */
  function GetReply(question: string, lower: char -> char, ai: string -> string): (r: Reply)
    ensures var q := Normalize(question, lower);
      && (r.FromModel? <==> forall k :: 0 <= k < |RuleKeywords| ==> !Matches(q, RuleKeywords[k]))
      && (r.FromModel? ==> r.asked == q && r.answer == ai(q))
      && (r.Canned? ==> r.rule < |RuleKeywords| && Matches(q, RuleKeywords[r.rule])
                          && forall j :: 0 <= j < r.rule ==> !Matches(q, RuleKeywords[j]))
  {
    var q := Normalize(question, lower);
    var k := FirstMatch(q, RuleKeywords);
    if k < |RuleKeywords| then Canned(k) else FromModel(q, ai(q))
  }

  // ---------------------------------------------------------------------
  // Consequences of normalising before matching
  // ---------------------------------------------------------------------

  /** A keyword holding a letter that folding removes never occurs in a normalised question. */
  lemma FoldedKeywordNeverOccurs(question: string, lower: char -> char, keyword: string, c: char)
    requires c in keyword && Folded(c)
    ensures !Contains(Normalize(question, lower), keyword)
  {
    NormalizedForm(question, lower);
    if Contains(Normalize(question, lower), keyword) {
      ContainedCharacter(Normalize(question, lower), keyword, c);
    }
  }

  /** The rule at line 88 can never answer: its only keyword starts with أ. */
  lemma ReassuranceRuleNeverFires(question: string, lower: char -> char)
    ensures !Matches(Normalize(question, lower), Rule13)
    ensures FirstMatch(Normalize(question, lower), RuleKeywords) != 13
  {
    RuleTable();
    var keyword := Rule13[0];
    assert keyword[0] == 'أ';
    FoldedKeywordNeverOccurs(question, lower, keyword, 'أ');
  }

  /** The keyword "معاينة" at line 68 never occurs either: it ends with ة. */
  lemma InspectionKeywordNeverOccurs(question: string, lower: char -> char)
    ensures !Contains(Normalize(question, lower), Rule8[1])
  {
    var keyword := Rule8[1];
    assert keyword[5] == 'ة';
    FoldedKeywordNeverOccurs(question, lower, keyword, 'ة');
  }

  /** A text whose characters fold one by one into those of `v` folds into `v`. */
  lemma FoldsInto(w: string, v: string)
    requires FoldsTo(w, v)
    ensures Fold(w) == v
  {
  }

  /** Folding turns "مساعدة" into the help keyword "مساعده". */
  lemma HelpSpelling()
    ensures Fold("مساعدة") == Rule6[0]
  {
    HelpLetters();
    FoldsInto("مساعدة", Rule6[0]);
  }

  /** "مساعدة" folds letter by letter into the help keyword. */
  lemma HelpLetters()
    ensures FoldsTo("مساعدة", Rule6[0])
  {
  }

  /** "محافظة" folds letter by letter into the shipping keyword "محافظه". */
  lemma ShippingLetters()
    ensures FoldsTo("محافظة", Rule7[2])
  {
  }

  /**
   * Keywords written with ه match questions typed with ة: where the
   * lower-cased question holds "مساعدة", the help rule matches.
   */
  lemma TaMarbutaMatchesHelp(question: string, lower: char -> char, i: int)
    requires OccursAt(Lower(Trim(question), lower), "مساعدة", i)
    ensures Matches(Normalize(question, lower), Rule6)
  {
    HelpLetters();
    FoldKeepsOccurrence(question, lower, "مساعدة", Rule6[0], i);
    OccurrenceMatches(Normalize(question, lower), Rule6, 0, i);
  }

  /** Where the lower-cased question holds "محافظة", the shipping rule matches. */
  lemma TaMarbutaMatchesShipping(question: string, lower: char -> char, i: int)
    requires OccursAt(Lower(Trim(question), lower), "محافظة", i)
    ensures Matches(Normalize(question, lower), Rule7)
  {
    ShippingLetters();
    FoldKeepsOccurrence(question, lower, "محافظة", Rule7[2], i);
    OccurrenceMatches(Normalize(question, lower), Rule7, 2, i);
  }

  /** A word inside a word inside the question is inside the question. */
  lemma ContainsTransitive(s: string, w: string, v: string)
    requires Contains(s, w) && Contains(w, v)
    ensures Contains(s, v)
  {
    ContainsIff(s, w);
    ContainsIff(w, v);
    var i :| OccursAt(s, w, i);
    var j :| OccursAt(w, v, j);
    forall k | 0 <= k < |v|
      ensures s[i + j + k] == v[k]
    {
      assert w[j + k] == v[k];
      assert s[i + (j + k)] == w[j + k];
    }
    assert s[i + j..i + j + |v|] == v;
    assert OccursAt(s, v, i + j);
    ContainsIff(s, v);
  }

  /**
   * The keyword " اختيار القماش المناسب" at line 59 never decides the
   * answer: a question holding it holds "مناسب", so the first rule
   * matches.
   */
  lemma ShadowedKeyword(question: string)
    requires Contains(question, Rule6[1])
    ensures Matches(question, Rule0)
    ensures FirstMatch(question, RuleKeywords) == 0
  {
    RuleTable();
    var long := Rule6[1];
    var short := Rule0[1];
    assert long[17..22] == short;
    assert OccursAt(long, short, 17);
    ContainsIff(long, short);
    ContainsTransitive(question, long, short);
  }

  /** A keyword that starts (ends) with white space can only occur past the start (before the end) of a normalised question. */
  lemma EdgeSpaceKeyword(question: string, lower: char -> char, keyword: string, i: int)
    requires forall c :: !IsWhiteSpace(c) ==> !IsWhiteSpace(lower(c))
    requires |keyword| > 0 && OccursAt(Normalize(question, lower), keyword, i)
    ensures IsWhiteSpace(keyword[0]) ==> i > 0
    ensures IsWhiteSpace(keyword[|keyword| - 1]) ==> i + |keyword| < |Normalize(question, lower)|
  {
    var q := Normalize(question, lower);
    NormalizedForm(question, lower);
    assert q[i] == keyword[0];
    assert q[i + |keyword| - 1] == keyword[|keyword| - 1];
  }

  /** A word with a character the text lacks does not occur in it. */
  lemma Foreign(s: string, w: string, j: nat)
    requires j < |w| && w[j] !in s
    ensures !Contains(s, w)
  {
    if Contains(s, w) {
      ContainedCharacter(s, w, w[j]);
    }
  }

  /** The lower-case map leaves the letters of `s` as they are. */
  predicate KeepsLetters(lower: char -> char, s: string) {
    forall i :: 0 <= i < |s| ==> lower(s[i]) == s[i]
  }

  /** A question already free of folded letters and edge white space, on letters lower-casing keeps, is its own normal form. */
  lemma AlreadyNormal(question: string, lower: char -> char)
    requires question == [] || (!IsWhiteSpace(question[0]) && !IsWhiteSpace(question[|question| - 1]))
    requires KeepsLetters(lower, question)
    requires forall i :: 0 <= i < |question| ==> !Folded(question[i])
    ensures Normalize(question, lower) == question
  {
    TrimUntouched(question);
    assert Lower(question, lower) == question;
    assert Fold(question) == question;
  }

  /**
   * A rule does not match a text when each of its keywords is longer than
   * the text or has, at the given position, a character the text lacks.
   */
  lemma MissesAll(s: string, keywords: seq<string>, at: seq<nat>)
    requires |at| == |keywords|
    requires forall i :: 0 <= i < |keywords| ==>
      |keywords[i]| > |s| || (at[i] < |keywords[i]| && keywords[i][at[i]] !in s)
    ensures !Matches(s, keywords)
  {
    forall i | 0 <= i < |keywords|
      ensures !Contains(s, keywords[i])
    {
      if |keywords[i]| <= |s| {
        Foreign(s, keywords[i], at[i]);
      }
    }
  }

  /** No keyword of the table occurs in "واتساب"; the contact keyword is " واتساب", with a leading space. */
  lemma NoRuleMatchesWhatsApp(q: string)
    requires q == "واتساب"
    ensures forall k :: 0 <= k < |RuleKeywords| ==> !Matches(q, RuleKeywords[k])
  {
    RuleTable();
    WhatsAppMissesFirstRules(q);
    WhatsAppMissesMiddleRules(q);
    WhatsAppMissesLastRules(q);
  }

  /** Rules 0 to 4 do not match "واتساب". */
  lemma WhatsAppMissesFirstRules(q: string)
    requires q == "واتساب"
    ensures !Matches(q, Rule0) && !Matches(q, Rule1) && !Matches(q, Rule2) && !Matches(q, Rule3) && !Matches(q, Rule4)
  {
    MissesAll(q, Rule0, [9, 0, 9, 13]);
    MissesAll(q, Rule1, [11, 21]);
    MissesAll(q, Rule2, [13, 17]);
    MissesAll(q, Rule3, [3, 1, 0, 0]);
    MissesAll(q, Rule4, [1, 0]);
  }

  /** Rules 5 to 9 do not match "واتساب". */
  lemma WhatsAppMissesMiddleRules(q: string)
    requires q == "واتساب"
    ensures !Matches(q, Rule5) && !Matches(q, Rule6) && !Matches(q, Rule7) && !Matches(q, Rule8) && !Matches(q, Rule9)
  {
    MissesAll(q, Rule5, [0, 1]);
    MissesAll(q, Rule6, [0, 22]);
    MissesAll(q, Rule7, [0, 9, 0]);
    MissesAll(q, Rule8, [12, 0]);
    MissesAll(q, Rule9, [9, 1]);
  }

  /** Rules 10 to 14, the contact rule among them, do not match "واتساب". */
  lemma WhatsAppMissesLastRules(q: string)
    requires q == "واتساب"
    ensures !Matches(q, Rule10) && !Matches(q, Rule11) && !Matches(q, Rule12) && !Matches(q, Rule13) && !Matches(q, Rule14)
  {
    MissesAll(q, Rule10, [12, 18]);
    MissesAll(q, Rule11, [7, 7]);
    MissesAll(q, Rule12, [7, 7, 7]);
    MissesAll(q, Rule13, [26]);
    MissesAll(q, Rule14, [1, 0, 0]);
  }

  /**
   * The question "واتساب" on its own misses the contact rule and every
   * other rule: it goes to the language model.
   */
  lemma WhatsAppAloneReachesModel(question: string, lower: char -> char, ai: string -> string)
    requires question == "واتساب" && KeepsLetters(lower, question)
    ensures GetReply(question, lower, ai) == FromModel(question, ai(question))
  {
    AlreadyNormal(question, lower);
    NoRuleMatchesWhatsApp(question);
    ModelConsulted(question, lower, ai);
  }

  /** A question whose normal form no rule matches is handed, normalised, to the language model. */
  lemma ModelConsulted(question: string, lower: char -> char, ai: string -> string)
    requires forall k :: 0 <= k < |RuleKeywords| ==> !Matches(Normalize(question, lower), RuleKeywords[k])
    ensures GetReply(question, lower, ai) == FromModel(Normalize(question, lower), ai(Normalize(question, lower)))
  {
  }

  /** The fabric-choice, wool and cold-weather rules do not match "مساعده". */
  lemma HelpMissesFabricRules(q: string)
    requires q == "مساعده"
    ensures !Matches(q, Rule0) && !Matches(q, Rule1) && !Matches(q, Rule2)
  {
    MissesAll(q, Rule0, [0, 1, 0, 0]);
    MissesAll(q, Rule1, [0, 0]);
    MissesAll(q, Rule2, [0, 0]);
  }

  /** The warmth, autumn and winter rules do not match "مساعده". */
  lemma HelpMissesSeasonRules(q: string)
    requires q == "مساعده"
    ensures !Matches(q, Rule3) && !Matches(q, Rule4) && !Matches(q, Rule5)
  {
    MissesAll(q, Rule3, [0, 1, 0, 2]);
    MissesAll(q, Rule4, [1, 0]);
    MissesAll(q, Rule5, [0, 1]);
  }

  /** The first six rules do not match "مساعده" and the seventh does. */
  lemma HelpIsFirstMatch(q: string)
    requires q == "مساعده"
    ensures FirstMatch(q, RuleKeywords) == 6
  {
    RuleTable();
    HelpMissesFabricRules(q);
    HelpMissesSeasonRules(q);
    OccurrenceMatches(q, Rule6, 0, 0);
    assert Matches(q, RuleKeywords[6]);
  }

  /**
   * A question that, trimmed and lower-cased, folds letter by letter into
   * the help keyword gets the help answer; "مساعدة", typed with ة, is one
   * (`HelpLetters`).
   */
  lemma TaMarbutaHelp(question: string, lower: char -> char, ai: string -> string)
    requires FoldsTo(Lower(Trim(question), lower), Rule6[0])
    ensures GetReply(question, lower, ai) == Canned(6)
  {
    FoldsInto(Lower(Trim(question), lower), Rule6[0]);
    HelpIsFirstMatch(Normalize(question, lower));
    CannedAnswer(question, lower, ai, 6);
  }

  /** When rule `k` is the first to match the normalised question, its fixed answer is the reply. */
  lemma CannedAnswer(question: string, lower: char -> char, ai: string -> string, k: nat)
    requires FirstMatch(Normalize(question, lower), RuleKeywords) == k < |RuleKeywords|
    ensures GetReply(question, lower, ai) == Canned(k)
  {
  }
}
