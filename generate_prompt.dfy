/** The prompt builder of the generation proxy: the instruction text sent to the model for one
    request form. The clauses are fixed Arabic sentences; the cuisine and meal-type clauses
    depend on the "any type" sentinel and the dietary clause on whether any option is chosen. */
module GeneratePrompt {
  import opened Text
  import opened Types

  /** The select value meaning "no preference" ("any type"). */
  const AnyType: string := "أي نوع"

  const Header: string := "قم بإنشاء وصفة طعام مفصلة باللغة العربية بناءً على المعلومات التالية. يرجى تقديم وصفة واحدة فقط.\n\n"
  const IngredientsLabel: string := "المكونات المتاحة: "
  /** Follows the quoted ingredients: the model may add common staple ingredients. */
  const StaplesSentence: string := ". يمكنك تضمين مكونات أساسية أخرى شائعة إذا لزم الأمر.\n"
  const CuisineLead: string := "المطبخ المفضل: \"يجب أن تكون الوصفة من المطبخ "
  const AnyCuisineLine: string := "المطبخ المفضل: \"يمكن أن يكون المطبخ من أي نوع.\"\n"
  const MealTypeLead: string := "نوع الوجبة المطلوب: \"يجب أن تكون الوصفة من نوع: "
  const AnyMealTypeLine: string := "نوع الوجبة المطلوب: \"يمكن أن تكون الوجبة من أي نوع.\"\n"
  const DietaryLead: string := "الاحتياجات الغذائية: \"يجب أن تكون مناسبة للأنظمة الغذائية التالية: "
  const NoDietaryLine: string := "الاحتياجات الغذائية: \"لا توجد قيود غذائية.\"\n"
  /** Closes the three "must be" clauses: a full stop, the closing quote, the newline. */
  const ClauseTail: string := ".\"\n"

  /** The ingredients text between double quotes, then the staples sentence. The text comes
      from a text area and may itself hold line breaks. */
  function IngredientsLine(ingredients: string): (r: string)
    ensures StartsWith(r, IngredientsLabel) && EndsWithNewline(r)
  {
    assert EndsWithNewline(StaplesSentence);
    NewlineAtEnd(IngredientsLabel + "\"" + ingredients + "\"", StaplesSentence);
    PrefixOf(IngredientsLabel, "\"" + ingredients + "\"" + StaplesSentence);
    IngredientsLabel + "\"" + ingredients + "\"" + StaplesSentence
  }

  /** The cuisine clause: a named cuisine after its lead, or the any-cuisine sentence. */
  function CuisineLine(cuisine: string): (r: string)
    ensures EndsWithNewline(r)
  {
    assert EndsWithNewline(ClauseTail) && EndsWithNewline(AnyCuisineLine);
    NewlineAtEnd(CuisineLead + cuisine, ClauseTail);
    if cuisine != AnyType then CuisineLead + cuisine + ClauseTail else AnyCuisineLine
  }

  /** The meal-type clause: a named meal type after its lead, or the any-meal sentence. */
  function MealTypeLine(mealType: string): (r: string)
    ensures EndsWithNewline(r)
  {
    assert EndsWithNewline(ClauseTail) && EndsWithNewline(AnyMealTypeLine);
    NewlineAtEnd(MealTypeLead + mealType, ClauseTail);
    if mealType != AnyType then MealTypeLead + mealType + ClauseTail else AnyMealTypeLine
  }

  /** The dietary clause: the joined options after their lead, or the no-restrictions
      sentence. */
  function DietaryLine(options: seq<string>): (r: string)
    ensures EndsWithNewline(r)
  {
    assert EndsWithNewline(ClauseTail) && EndsWithNewline(NoDietaryLine);
    NewlineAtEnd(DietaryLead + Join(options), ClauseTail);
    if |options| > 0 then DietaryLead + Join(options) + ClauseTail else NoDietaryLine
  }

  /** The four clause lines of a form, in the order they are written. */
  function Clauses(f: FormData): seq<string> {
    [IngredientsLine(f.ingredients), CuisineLine(f.cuisine), MealTypeLine(f.mealType),
     DietaryLine(f.dietaryOptions)]
  }

  /** The specification of the prompt: the header followed by the four clauses. It starts with
      the header and ends in a newline. */
  function Prompt(f: FormData): (r: string)
    ensures StartsWith(r, Header) && EndsWithNewline(r)
  {
    HeadAndTail(Header, IngredientsLine(f.ingredients), CuisineLine(f.cuisine),
      MealTypeLine(f.mealType), DietaryLine(f.dietaryOptions));
    Header + IngredientsLine(f.ingredients) + CuisineLine(f.cuisine) + MealTypeLine(f.mealType)
    + DietaryLine(f.dietaryOptions)
  }

  /** `buildPrompt`: appends to a local `prompt` one template per clause. Total: every form,
      including one with empty ingredients, yields a prompt. */
  method BuildPrompt(formData: FormData) returns (prompt: string)
    ensures prompt == Prompt(formData)
  {
    prompt := Header;
    prompt := prompt + (IngredientsLabel + "\"" + formData.ingredients + "\"" + StaplesSentence);
    if formData.cuisine != AnyType {
      prompt := prompt + (CuisineLead + formData.cuisine + ClauseTail);
    } else {
      prompt := prompt + AnyCuisineLine;
    }
    if formData.mealType != AnyType {
      prompt := prompt + (MealTypeLead + formData.mealType + ClauseTail);
    } else {
      prompt := prompt + AnyMealTypeLine;
    }
    if |formData.dietaryOptions| > 0 {
      prompt := prompt + (DietaryLead + Join(formData.dietaryOptions) + ClauseTail);
    } else {
      prompt := prompt + NoDietaryLine;
    }
  }

  predicate EndsWithNewline(s: string) {
    |s| > 0 && s[|s| - 1] == '\n'
  }

  /** How a left-nested concatenation of five pieces is cut back into them. */
  lemma SlicesOfFive<T>(a: seq<T>, b: seq<T>, c: seq<T>, d: seq<T>, e: seq<T>)
    ensures var p, o1, o2, o3 := a + b + c + d + e, |a| + |b|, |a| + |b| + |c|, |a| + |b| + |c| + |d|;
      && |p| == o3 + |e|
      && p[..|a|] == a && p[|a|..o1] == b && p[o1..o2] == c && p[o2..o3] == d && p[o3..] == e
  {
    var p := a + b + c + d + e;
    var o1, o2, o3 := |a| + |b|, |a| + |b| + |c|, |a| + |b| + |c| + |d|;
    assert p[..o3] == a + b + c + d;
    assert p[..o2] == a + b + c;
    assert p[..o1] == a + b;
  }

  /** A header followed by four pieces starts with the header and ends as the last piece does. */
  lemma HeadAndTail(h: string, a: string, b: string, c: string, d: string)
    requires EndsWithNewline(d)
    ensures StartsWith(h + a + b + c + d, h) && EndsWithNewline(h + a + b + c + d)
  {
    NewlineAtEnd(h + a + b + c, d);
    assert (h + a + b + c + d)[..|h|] == h;
  }

  lemma PrefixOf(x: string, y: string)
    ensures StartsWith(x + y, x)
  {
    assert (x + y)[..|x|] == x;
  }

  lemma NewlineAtEnd(x: string, y: string)
    requires EndsWithNewline(y)
    ensures EndsWithNewline(x + y)
  {
    assert (x + y)[|x + y| - 1] == y[|y| - 1];
  }

  /** The prompt cuts back into the header and the four clauses -- ingredients, cuisine, meal
      type, dietary needs, in that order -- at the offsets their lengths give, each clause
      ending in a newline. */
  lemma PromptLayout(f: FormData)
    ensures CutsInto(Prompt(f), Header, Clauses(f))
    ensures forall i :: 0 <= i < |Clauses(f)| ==> EndsWithNewline(Clauses(f)[i])
  {
    var c := Clauses(f);
    PromptOfClauses(f);
    LayoutOfFive(Header, c);
  }

  lemma PromptOfClauses(f: FormData)
    ensures var c := Clauses(f); Prompt(f) == Header + c[0] + c[1] + c[2] + c[3]
  {
  }

  /** `p` is `h` followed by the four pieces of `c`, each at the offset that the lengths before
      it give. */
  predicate CutsInto(p: string, h: string, c: seq<string>) {
    && |c| == 4
    && var o1 := |h| + |c[0]|;
       var o2 := o1 + |c[1]|;
       var o3 := o2 + |c[2]|;
       && |p| == o3 + |c[3]|
       && p[..|h|] == h && p[|h|..o1] == c[0] && p[o1..o2] == c[1] && p[o2..o3] == c[2]
       && p[o3..] == c[3]
  }

  lemma LayoutOfFive(h: string, c: seq<string>)
    requires |c| == 4
    ensures CutsInto(h + c[0] + c[1] + c[2] + c[3], h, c)
  {
    SlicesOfFive(h, c[0], c[1], c[2], c[3]);
  }

  /** Where the quoted text sits in a prompt whose first line is `name"x"rest`. */
  lemma QuotedAfterHeader(h: string, name: string, x: string, rest: string,
                          r1: string, r2: string, r3: string)
    ensures var p, a := h + (name + "\"" + x + "\"" + rest) + r1 + r2 + r3, |h| + |name| + 1;
      && a + |x| + 1 + |rest| <= |p|
      && p[a - 1] == '"' && p[a..a + |x|] == x && p[a + |x|] == '"'
      && p[a + |x| + 1..a + |x| + 1 + |rest|] == rest
  {
    var a := |h| + |name| + 1;
    var r := r1 + r2 + r3;
    var p := h + (name + "\"" + x + "\"" + rest) + r1 + r2 + r3;
    assert p == (h + name + "\"") + x + "\"" + rest + r;
    SlicesOfFive(h + name + "\"", x, "\"", rest, r);
  }

  /** The ingredients text appears verbatim between double quotes, followed by the staples
      sentence, right after the header -- also when it is empty. */
  lemma IngredientsVerbatim(f: FormData)
    ensures var p, a := Prompt(f), |Header| + |IngredientsLabel| + 1;
      && a + |f.ingredients| + 1 + |StaplesSentence| <= |p|
      && p[a - 1] == '"'
      && p[a..a + |f.ingredients|] == f.ingredients
      && p[a + |f.ingredients|] == '"'
      && p[a + |f.ingredients| + 1..a + |f.ingredients| + 1 + |StaplesSentence|] == StaplesSentence
  {
    QuotedAfterHeader(Header, IngredientsLabel, f.ingredients, StaplesSentence,
                      CuisineLine(f.cuisine), MealTypeLine(f.mealType), DietaryLine(f.dietaryOptions));
  }

  /** The cuisine clause is the any-cuisine line exactly when the sentinel is chosen; any other
      value gives the must-be-from clause naming it verbatim, and the sentinel never does. */
  lemma CuisineClause(cuisine: string)
    ensures CuisineLine(cuisine) == AnyCuisineLine <==> cuisine == AnyType
    ensures StartsWith(CuisineLine(cuisine), CuisineLead) <==> cuisine != AnyType
    ensures cuisine != AnyType ==>
      CuisineLine(cuisine)[|CuisineLead|..|CuisineLead| + |cuisine|] == cuisine
  {
    // the two sentences part at their 18th character ("يجب" against "يمكن")
    assert CuisineLead[17] != AnyCuisineLine[17];
    if cuisine != AnyType {
      var line := CuisineLine(cuisine);
      assert line[..|CuisineLead|] == CuisineLead;
      assert line[17] == CuisineLead[17];
      assert line[|CuisineLead|..|CuisineLead| + |cuisine|] == cuisine;
    }
  }

  /** The meal-type clause follows the same rule against the same sentinel. */
  lemma MealTypeClause(mealType: string)
    ensures MealTypeLine(mealType) == AnyMealTypeLine <==> mealType == AnyType
    ensures StartsWith(MealTypeLine(mealType), MealTypeLead) <==> mealType != AnyType
    ensures mealType != AnyType ==>
      MealTypeLine(mealType)[|MealTypeLead|..|MealTypeLead| + |mealType|] == mealType
  {
    // the two sentences part at their 23rd character ("يجب" against "يمكن")
    assert MealTypeLead[22] != AnyMealTypeLine[22];
    if mealType != AnyType {
      var line := MealTypeLine(mealType);
      assert line[..|MealTypeLead|] == MealTypeLead;
      assert line[22] == MealTypeLead[22];
      assert line[|MealTypeLead|..|MealTypeLead| + |mealType|] == mealType;
    }
  }

  /** The dietary clause is the no-restrictions line exactly when no option is chosen; otherwise
      it lists the options joined by ", " in list order, and splitting the listed text at the
      separators gives the options back (for options without commas). */
  lemma DietaryClause(options: seq<string>)
    ensures DietaryLine(options) == NoDietaryLine <==> options == []
    ensures StartsWith(DietaryLine(options), DietaryLead) <==> options != []
    ensures options != [] ==>
      var listed := DietaryLine(options)[|DietaryLead|..|DietaryLine(options)| - |ClauseTail|];
      && listed == Join(options)
      && ((forall k, i :: 0 <= k < |options| && 0 <= i < |options[k]| ==> options[k][i] != ',')
          ==> Split(listed) == options)
  {
    // a listing line is longer than the no-restrictions line
    assert |NoDietaryLine| < |DietaryLead|;
    if options != [] {
      var line := DietaryLine(options);
      assert line[..|DietaryLead|] == DietaryLead;
      assert line[|DietaryLead|..|line| - |ClauseTail|] == Join(options);
      if forall k, i :: 0 <= k < |options| && 0 <= i < |options[k]| ==> options[k][i] != ',' {
        SplitJoin(options);
      }
    }
  }
}
