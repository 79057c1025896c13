/** The persona check and the persona-to-template table of the
    `/generate-review` handler: a request names a persona and two free-text
    fields, and gets back either the prompt to send to the generator or the
    message of the error the handler throws. */
module PromptBuilder {

  /** A step that either yields a value or throws an `Error` with a message. */
  datatype Result<T> = Success(value: T) | Failure(message: string)

  /** The three reader personas a review can be written for. */
  datatype Persona = Newcomer | Novice | Connoisseur

  /** How a request body spells each persona. */
  function Label(p: Persona): string {
    match p
    case Newcomer => "newcomer"
    case Novice => "novice"
    case Connoisseur => "connoisseur"
  }

  /** The accepted labels, in the order the error message lists them. */
  const ValidPersonas: seq<string> := ["newcomer", "novice", "connoisseur"]

  /** The accepted list is exactly the labels of the three personas, in the
      order newcomer, novice, connoisseur. */
  lemma ValidPersonasAreLabels()
    ensures ValidPersonas == [Label(Newcomer), Label(Novice), Label(Connoisseur)]
    ensures forall p: Persona :: Label(p) in ValidPersonas
  {
  }

  /** `t` is a suffix of `s`. */
  predicate EndsWith(s: string, t: string) {
    |t| <= |s| && s[|s| - |t|..] == t
  }

  /** JavaScript's `xs.join(sep)`: the elements with `sep` between neighbours,
      so the result opens with the first element and closes with the last. */
  function Join(xs: seq<string>, sep: string): (r: string)
    ensures |xs| == 0 ==> r == ""
    ensures |xs| > 0 ==> xs[0] <= r && EndsWith(r, xs[|xs| - 1])
    ensures |xs| > 1 ==> |r| >= |xs[0]| + |sep| && r[|xs[0]|..|xs[0]| + |sep|] == sep
  {
    if |xs| == 0 then ""
    else if |xs| == 1 then xs[0]
    else
      var rest := Join(xs[1..], sep);
      var last := xs[|xs| - 1];
      assert xs[1..][|xs[1..]| - 1] == last;
      var r := xs[0] + sep + rest;
      assert r[|r| - |last|..] == rest[|rest| - |last|..];
      r
  }

  /** The accepted personas joined by ", " read "newcomer, novice, connoisseur". */
  lemma {:induction false} JoinedPersonas()
    ensures Join(ValidPersonas, ", ") == "newcomer, novice, connoisseur"
  {
    var tail1, tail2 := ValidPersonas[1..], ValidPersonas[1..][1..];
    assert tail1 == ["novice", "connoisseur"] && tail2 == ["connoisseur"];
    assert Join(tail2, ", ") == "connoisseur";
    assert Join(tail1, ", ") == "novice" + ", " + "connoisseur";
  }

  /** The message thrown for a persona outside the accepted set: it quotes the
      persona and lists the accepted ones joined by ", ". */
  function InvalidPersonaMessage(persona: string): (m: string)
    ensures m == "Invalid persona '" + persona + "'. Expected one of: newcomer, novice, connoisseur"
  {
    var joined := Join(ValidPersonas, ", ");
    JoinedPersonas();
    var head := "Invalid persona '" + persona;
    assert (head + "'. Expected one of: ") + joined
        == head + ("'. Expected one of: " + joined);
    head + "'. Expected one of: " + joined
  }

  /** The `validPersonas.includes(persona)` check: a label is accepted exactly
      when it is one of the three, and then it names the persona it spells. */
  function ParsePersona(name: string): (r: Result<Persona>)
    ensures r.Success? <==> name in ValidPersonas
    ensures r.Success? ==> Label(r.value) == name
    ensures r.Failure? ==> r.message == InvalidPersonaMessage(name)
  {
    if name == "newcomer" then Success(Newcomer)
    else if name == "novice" then Success(Novice)
    else if name == "connoisseur" then Success(Connoisseur)
    else Failure(InvalidPersonaMessage(name))
  }

  /** Every persona's own label is accepted and parses back to that persona. */
  lemma ParseLabel(p: Persona)
    ensures ParsePersona(Label(p)) == Success(p)
  {
    match p
    case Newcomer =>
    case Novice =>
      assert Label(p) != "newcomer" by { assert Label(p)[1] != "newcomer"[1]; }
    case Connoisseur =>
      assert Label(p) != "newcomer" by { assert Label(p)[0] != "newcomer"[0]; }
      assert Label(p) != "novice" by { assert Label(p)[0] != "novice"[0]; }
  }

  /** The text of each persona's template that comes before the varietal.
      All three open with the same words; the character after them tells
      "has never had" from "is ...", and three characters later "is new to"
      is told from "is familiar with". */
  function Lead(p: Persona): (r: string)
    ensures |r| > 42 && r[..39] == "Generate a wine review for someone who "
    ensures r[39] == (if p == Newcomer then 'h' else 'i')
    ensures p != Newcomer ==> r[42] == (if p == Novice then 'n' else 'f')
  {
    match p
    case Newcomer => "Generate a wine review for someone who has never had "
    case Novice => "Generate a wine review for someone who is new to "
    case Connoisseur => "Generate a wine review for someone who is familiar with "
  }

  /** A persona's template with `varietal` and `region` filled in verbatim:
      the lead, then the varietal unchanged, then " from ", the region
      unchanged and a full stop. */
  function Template(p: Persona, varietal: string, region: string): (r: string)
    ensures var n, v := |Lead(p)|, |varietal|;
            && |r| == n + v + |region| + 7
            && r[..n] == Lead(p)
            && r[n..n + v] == varietal
            && r[n + v..n + v + 6] == " from "
            && r[n + v + 6..|r| - 1] == region
            && r[|r| - 1] == '.'
  {
    var a := Lead(p) + varietal;
    var b := a + " from ";
    var c := b + region;
    assert a[..|Lead(p)|] == Lead(p) && a[|Lead(p)|..] == varietal;
    assert b[..|a|] == a && c[..|b|] == b && (c + ".")[..|c|] == c;
    assert c[|b|..] == region;
    c + "."
  }

  /** Validate the persona, then look its template up and fill it in. The
      fields are inserted verbatim: no escaping, trimming or length limit. */
  function BuildPrompt(persona: string, varietal: string, region: string): (r: Result<string>)
    ensures r.Failure? <==> persona !in ValidPersonas
    ensures r.Failure? ==> r.message == "Invalid persona '" + persona
                                       + "'. Expected one of: newcomer, novice, connoisseur"
    ensures persona == "newcomer" ==> r == Success(
      "Generate a wine review for someone who has never had " + varietal + " from " + region + ".")
    ensures persona == "novice" ==> r == Success(
      "Generate a wine review for someone who is new to " + varietal + " from " + region + ".")
    ensures persona == "connoisseur" ==> r == Success(
      "Generate a wine review for someone who is familiar with " + varietal + " from " + region + ".")
  {
    match ParsePersona(persona)
    case Failure(m) => Failure(m)
    case Success(p) => Success(Template(p, varietal, region))
  }

  datatype Option<T> = None | Some(value: T)

  /** Reads back which template a prompt was built from, if any. */
  function PersonaOf(prompt: string): Option<Persona> {
    if Lead(Newcomer) <= prompt then Some(Newcomer)
    else if Lead(Novice) <= prompt then Some(Novice)
    else if Lead(Connoisseur) <= prompt then Some(Connoisseur)
    else None
  }

  /** A prompt determines its persona, whatever the varietal and region. */
  lemma PersonaOfTemplate(p: Persona, varietal: string, region: string)
    ensures PersonaOf(Template(p, varietal, region)) == Some(p)
  {
    var t := Template(p, varietal, region);
    assert Lead(p) <= t by {
      assert t[..|Lead(p)|] == Lead(p);
    }
    // Index 39 separates "has never had" from "is ..."; index 42 separates
    // "is new to" from "is familiar with".
    assert t[39] == Lead(p)[39] && t[42] == Lead(p)[42];
    match p
    case Newcomer =>
    case Novice =>
      assert !(Lead(Newcomer) <= t) by { assert Lead(Newcomer)[39] != t[39]; }
    case Connoisseur =>
      assert !(Lead(Newcomer) <= t) by { assert Lead(Newcomer)[39] != t[39]; }
      assert !(Lead(Novice) <= t) by { assert Lead(Novice)[42] != t[42]; }
  }

  /** Two prompts built from different personas never coincide. */
  lemma PromptDeterminesPersona(p: Persona, q: Persona, v1: string, r1: string, v2: string, r2: string)
    requires Template(p, v1, r1) == Template(q, v2, r2)
    ensures p == q
  {
    PersonaOfTemplate(p, v1, r1);
    PersonaOfTemplate(q, v2, r2);
  }

  /** For one varietal and region, the three accepted personas give three
      pairwise different prompts. */
  lemma DistinctPersonasDistinctPrompts(a: string, b: string, varietal: string, region: string)
    requires a in ValidPersonas && b in ValidPersonas && a != b
    ensures BuildPrompt(a, varietal, region).Success?
    ensures BuildPrompt(b, varietal, region).Success?
    ensures BuildPrompt(a, varietal, region).value != BuildPrompt(b, varietal, region).value
  {
    var p, q := ParsePersona(a).value, ParsePersona(b).value;
    if Template(p, varietal, region) == Template(q, varietal, region) {
      PromptDeterminesPersona(p, q, varietal, region, varietal, region);
    }
  }
}
