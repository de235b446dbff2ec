/** The four languages the program trains and the mapping of a classifier
    category to the name it reports (`testSentence`). */
module Languages {
  import opened Wrappers

  datatype Language = German | English | French | Spanish

  /** The category string under which a language is learned and reported. */
  function Name(l: Language): string
  {
    match l
    case German => "German"
    case English => "English"
    case French => "French"
    case Spanish => "Spanish"
  }

  /** Reported for a category that names none of the four languages. */
  const NoLanguage: string := "NoLanguage"

  /** Every string `testSentence` can report. */
  const Reports: set<string> := {"English", "German", "French", "Spanish", NoLanguage}

  /** The language a category string names, if any. */
  function Parse(category: string): (r: Option<Language>)
    ensures r.Some? ==> Name(r.value) == category
    ensures r.None? ==> forall l :: Name(l) != category
  {
    if category == "German" then Some(German)
    else if category == "English" then Some(English)
    else if category == "French" then Some(French)
    else if category == "Spanish" then Some(Spanish)
    else None
  }

  /** Names are distinct, so a name parses back to its language. */
  lemma ParseName(l: Language)
    ensures Parse(Name(l)) == Some(l)
  {
  }

  /** `testSentence`'s mapping: the category itself when it names one of the
      four languages, "NoLanguage" otherwise; so always one of five strings. */
  function Normalise(category: string): (r: string)
    ensures r == match Parse(category) case Some(l) => Name(l) case None => NoLanguage
    ensures r in Reports
    ensures r != NoLanguage ==> r == category
  {
    if category == "English" then "English"
    else if category == "German" then "German"
    else if category == "French" then "French"
    else if category == "Spanish" then "Spanish"
    else NoLanguage
  }
}
