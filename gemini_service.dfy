/** The client-side copy of the prompt builder, used by the direct-mode generation client. It
    carries its own copies of the sentinel and of every sentence; its contract ties it to the
    proxy's specification, so the properties proved there (IngredientsVerbatim, CuisineClause,
    MealTypeClause, DietaryClause, PromptLayout) hold of this copy too. */
module GeminiService {
  import opened Text
  import opened Types
  import GeneratePrompt

  const AnyType: string := "أي نوع"

  const Header: string := "قم بإنشاء وصفة طعام مفصلة باللغة العربية بناءً على المعلومات التالية. يرجى تقديم وصفة واحدة فقط.\n\n"
  const IngredientsLabel: string := "المكونات المتاحة: "
  const StaplesSentence: string := ". يمكنك تضمين مكونات أساسية أخرى شائعة إذا لزم الأمر.\n"
  const CuisineLead: string := "المطبخ المفضل: \"يجب أن تكون الوصفة من المطبخ "
  const AnyCuisineLine: string := "المطبخ المفضل: \"يمكن أن يكون المطبخ من أي نوع.\"\n"
  const MealTypeLead: string := "نوع الوجبة المطلوب: \"يجب أن تكون الوصفة من نوع: "
  const AnyMealTypeLine: string := "نوع الوجبة المطلوب: \"يمكن أن تكون الوجبة من أي نوع.\"\n"
  const DietaryLead: string := "الاحتياجات الغذائية: \"يجب أن تكون مناسبة للأنظمة الغذائية التالية: "
  const NoDietaryLine: string := "الاحتياجات الغذائية: \"لا توجد قيود غذائية.\"\n"
  const ClauseTail: string := ".\"\n"

  /** `buildPrompt` (second copy): for every form it returns exactly the proxy's prompt. */
  method BuildPrompt(formData: FormData) returns (prompt: string)
    ensures prompt == GeneratePrompt.Prompt(formData)
  {
    prompt := Header;
    prompt := prompt + (IngredientsLabel + "\"" + formData.ingredients + "\"" + StaplesSentence);
    if formData.cuisine != AnyType {
      prompt := prompt + (CuisineLead + formData.cuisine + ClauseTail);
    } else {
      prompt := prompt + AnyCuisineLine;
    }
    if formData.mealType != AnyType {
      prompt := prompt + (MealTypeLead + formData.mealType + ClauseTail);
    } else {
      prompt := prompt + AnyMealTypeLine;
    }
    if |formData.dietaryOptions| > 0 {
      prompt := prompt + (DietaryLead + Join(formData.dietaryOptions) + ClauseTail);
    } else {
      prompt := prompt + NoDietaryLine;
    }
  }
}
