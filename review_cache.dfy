/** The cache-or-generate part of the `/generate-review` handler. The
    `reviews` table is a map from prompt to review text; the completion
    service is a function from prompt to text that the caller passes in. A
    ghost log records every prompt handed to that function, so the contracts
    can say when, and how often, it is called. */
module ReviewCache {
  import opened PromptBuilder
  import opened ReviewText

  /** The `reviews` table, as seen by one request. */
  class ReviewStore {
    /** prompt -> review; a lookup is an exact match on the prompt. */
    var rows: map<string, string>
    /** Every prompt handed to the generator so far, in call order. */
    ghost var generatorCalls: seq<string>

    /** A table holding `initial`, before any generation. */
    constructor (initial: map<string, string>)
      ensures rows == initial && generatorCalls == []
    {
      rows := initial;
      generatorCalls := [];
    }

    /** Every stored review is in the form the clean-up produces. */
    ghost predicate AllNormalised()
      reads this
    {
      forall p :: p in rows ==> Normalised(rows[p])
    }

    /** `SELECT review FROM reviews WHERE prompt = @prompt`: the stored review
        for exactly this prompt, if there is one. */
    method Find(prompt: string) returns (found: Option<string>)
      ensures found.Some? <==> prompt in rows
      ensures found.Some? ==> found.value == rows[prompt]
    {
      found := if prompt in rows then Some(rows[prompt]) else None;
    }

    /** `INSERT INTO reviews (prompt, review) VALUES (@prompt, @review)`. */
    method Insert(prompt: string, review: string)
      modifies this`rows
      ensures rows == old(rows)[prompt := review]
    {
      rows := rows[prompt := review];
    }

    /** The completion request: the generator sees the prompt once. */
    method Complete(prompt: string, generate: string -> string) returns (text: string)
      modifies this`generatorCalls
      ensures text == generate(prompt)
      ensures generatorCalls == old(generatorCalls) + [prompt]
    {
      text := generate(prompt);
      generatorCalls := generatorCalls + [prompt];
    }

    /** Serve `prompt` from the table, or generate, clean up and store a new
        review. A hit returns the stored text verbatim and changes nothing; a
        miss calls the generator exactly once and adds exactly one row. Either
        way the table afterwards maps the prompt to the returned review, and a
        table of normalised reviews stays one. */
    method GetOrGenerate(prompt: string, generate: string -> string) returns (review: string)
      modifies this`rows, this`generatorCalls
      ensures prompt in old(rows) ==>
        && review == old(rows)[prompt]
        && rows == old(rows)
        && generatorCalls == old(generatorCalls)
      ensures prompt !in old(rows) ==>
        && review == Normalise(generate(prompt))
        && rows == old(rows)[prompt := review]
        && generatorCalls == old(generatorCalls) + [prompt]
      ensures prompt in rows && rows[prompt] == review
      ensures old(AllNormalised()) ==> AllNormalised() && Normalised(review)
    {
      var found := Find(prompt);
      if found.Some? {
        review := found.value;
        return;
      }
      var text := Complete(prompt, generate);
      review := Trim(text);
      review := Trim(CollapseBlankLines(review));
      Insert(prompt, review);
    }

    /** The handler without its I/O: check the persona, build the prompt,
        then serve it. An unknown persona fails with the handler's message
        before the table or the generator is touched. */
    method GenerateReview(persona: string, varietal: string, region: string,
                          generate: string -> string)
      returns (response: Result<string>)
      modifies this`rows, this`generatorCalls
      ensures persona !in ValidPersonas ==>
        && response == Failure("Invalid persona '" + persona
                               + "'. Expected one of: newcomer, novice, connoisseur")
        && rows == old(rows)
        && generatorCalls == old(generatorCalls)
      ensures persona in ValidPersonas ==>
        var prompt := BuildPrompt(persona, varietal, region).value;
        && response.Success?
        && prompt in rows && rows[prompt] == response.value
        && (prompt in old(rows) ==>
              response.value == old(rows)[prompt] && rows == old(rows)
              && generatorCalls == old(generatorCalls))
        && (prompt !in old(rows) ==>
              response.value == Normalise(generate(prompt))
              && rows == old(rows)[prompt := response.value]
              && generatorCalls == old(generatorCalls) + [prompt])
    {
      var built := BuildPrompt(persona, varietal, region);
      if built.Failure? {
        return Failure(built.message);
      }
      var review := GetOrGenerate(built.value, generate);
      response := Success(review);
    }

    /** The same request twice against the persisted table: both answers are
        the same text, and the table and the generator log end up exactly as
        after the first request alone, so the second one is a hit. */
    method RepeatRequest(persona: string, varietal: string, region: string,
                         generate: string -> string)
      returns (first: Result<string>, second: Result<string>)
      modifies this`rows, this`generatorCalls
      ensures first == second
      ensures persona !in ValidPersonas ==>
        && first.Failure? && second.Failure?
        && rows == old(rows)
        && generatorCalls == old(generatorCalls)
      ensures persona in ValidPersonas ==>
        var prompt := BuildPrompt(persona, varietal, region).value;
        && first.Success?
        && prompt in rows && rows[prompt] == second.value
        && (prompt in old(rows) ==>
              rows == old(rows) && generatorCalls == old(generatorCalls))
        && (prompt !in old(rows) ==>
              rows == old(rows)[prompt := first.value]
              && generatorCalls == old(generatorCalls) + [prompt])
    {
      first := GenerateReview(persona, varietal, region, generate);
      ghost var between := generatorCalls;
      second := GenerateReview(persona, varietal, region, generate);
      assert generatorCalls == between;
    }
  }
}
