/** The records shared by the front end and the generation proxy. */
module Types {
  /** A banner of the admin panel: image reference (URL or data URL), text and destination. */
  datatype Advertisement = Advertisement(imageUrl: string, text: string, linkUrl: string)

  /** The recipe request form. */
  datatype FormData = FormData(
    ingredients: string,
    cuisine: string,
    mealType: string,
    dietaryOptions: seq<string>)

  /** A generated recipe, as the output schema declares it. */
  datatype Recipe = Recipe(
    recipeName: string,
    description: string,
    servings: string,
    prepTime: string,
    cookTime: string,
    ingredients: seq<string>,
    instructions: seq<string>)
}
