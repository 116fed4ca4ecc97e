/** The strings the screen hands to the speech engine: the spoken question of
    `speakCarModel`, built from the car's drawable name, and the spoken
    feedback after an answer. */
module Speech {
  import opened Content

  /** `id.split("_")[0]`: the part of a car id before its first underscore, or
      the whole id when it has none. */
  function {:induction false} ModelName(id: string): (name: string)
    ensures |name| <= |id| && name == id[..|name|]
    ensures '_' !in name
    ensures |name| < |id| ==> id[|name|] == '_'
  {
    if id == [] || id[0] == '_' then []
    else
      var rest := ModelName(id[1..]);
      [id[0]] + rest
  }

  /** `Char.uppercase()` on the letters `a`..`z`; every other character is left as it is. */
  function UpperCase(c: char): (u: char)
    ensures 'a' <= c <= 'z' ==> 'A' <= u <= 'Z' && u as int - c as int == 'A' as int - 'a' as int
    ensures !('a' <= c <= 'z') ==> u == c
  {
    if 'a' <= c <= 'z' then (c as int - 'a' as int + 'A' as int) as char else c
  }

  /** The model name is exactly the part of the id before its first underscore. */
  lemma ModelNameBeforeFirstUnderscore(id: string, k: nat)
    requires k < |id| && id[k] == '_' && '_' !in id[..k]
    ensures ModelName(id) == id[..k]
  {
  }

  /** `replaceFirstChar { it.uppercase() }`. */
  function Capitalize(s: string): string {
    if s == [] then [] else [UpperCase(s[0])] + s[1..]
  }

  /** Capitalizing keeps the length and every character after the first, and
      doing it twice is doing it once. */
  lemma CapitalizeFacts(s: string)
    ensures |Capitalize(s)| == |s|
    ensures s != [] ==> Capitalize(s)[0] == UpperCase(s[0])
    ensures s != [] ==> Capitalize(s)[1..] == s[1..]
    ensures s != [] ==> !('a' <= Capitalize(s)[0] <= 'z')
    ensures Capitalize(Capitalize(s)) == Capitalize(s)
  {
  }

  const PromptPrefix: string := "Qual a marca do "

  /** The question `speakCarModel` speaks for a car id. */
  function Prompt(id: string): string {
    PromptPrefix + Capitalize(ModelName(id)) + "?"
  }

  /** Reads the model name back out of a spoken question. */
  function PromptSubject(prompt: string): (subject: string)
    requires |prompt| > |PromptPrefix|
  {
    prompt[|PromptPrefix|..|prompt| - 1]
  }

  /** The question opens with the fixed prefix, closes with `?`, and what lies
      between is the capitalized model name, which can be read back out. */
  lemma PromptNamesModel(id: string)
    ensures Prompt(id)[..|PromptPrefix|] == PromptPrefix
    ensures Prompt(id)[|Prompt(id)| - 1] == '?'
    ensures |Prompt(id)| > |PromptPrefix|
    ensures PromptSubject(Prompt(id)) == Capitalize(ModelName(id))
  {
    CapitalizeFacts(ModelName(id));
  }

  /** The two cars of the table: `jeep_jeep` is asked as "Jeep", `celta_chevrolet` as "Celta". */
  lemma PromptJeep()
    ensures Prompt("jeep_jeep") == "Qual a marca do Jeep?"
  {
    PromptOf("jeep_jeep", "jeep", "Jeep");
  }

  lemma PromptCelta()
    ensures Prompt("celta_chevrolet") == "Qual a marca do Celta?"
  {
    PromptOf("celta_chevrolet", "celta", "Celta");
  }

  lemma PromptOf(id: string, name: string, capitalized: string)
    requires |name| < |id| && id[..|name|] == name && id[|name|] == '_' && '_' !in name
    requires Capitalize(name) == capitalized
    ensures Prompt(id) == PromptPrefix + capitalized + "?"
  {
    ModelNameBeforeFirstUnderscore(id, |name|);
  }

  /** What the speech engine is asked to say after an answer: it names the model
      (as it appears in the id, not capitalized) and the correct brand, whether
      the answer was right or wrong. */
  function SpokenFeedback(right: bool, car: Car, correctBrand: Brand): string {
    if right then "Isso mesmo, a marca do " + ModelName(car.id) + " é " + correctBrand
    else "Errado, a marca correta do " + ModelName(car.id) + " é " + correctBrand
  }

  /** Either message opens with its fixed words, names the model right after
      them, and ends with the correct brand; the two messages differ. */
  lemma SpokenFeedbackNamesBrand(right: bool, car: Car, correctBrand: Brand)
    ensures var m := SpokenFeedback(right, car, correctBrand);
      |m| >= |correctBrand| && m[|m| - |correctBrand|..] == correctBrand
    ensures var m := SpokenFeedback(right, car, correctBrand);
      var opening := if right then "Isso mesmo, a marca do " else "Errado, a marca correta do ";
      var name := ModelName(car.id);
      |m| >= |opening| + |name| && m[..|opening|] == opening && m[|opening|..|opening| + |name|] == name
    ensures SpokenFeedback(true, car, correctBrand) != SpokenFeedback(false, car, correctBrand)
  {
    assert SpokenFeedback(true, car, correctBrand)[0] != SpokenFeedback(false, car, correctBrand)[0];
  }
}
