/**
 * The simulated generation client (`GeminiClient`): the response is a text
 * built from the prompt and the search flag, or an error text when no API
 * key is configured. The simulated delays and the logging are left out.
 */
module Gemini {
  import opened Wrappers
  import opened Text

  /** The text of the error answer: "Error: API Key not configured for GeminiClient." */
  const MissingKeyMessage := "Error:" + " API Key not configured for GeminiClient."

  /** The response without search: `Simulated Gemini response for: '<prompt>'.` */
  function BaseResponse(prompt: string): string {
    "Simulated Gemini response for: '" + prompt + "'."
  }

  /** The search part: `Simulated internet search result for '<prompt>'.` */
  function SearchResult(prompt: string): string {
    "Simulated internet search result for '" + prompt + "'."
  }

  predicate StartsWith(s: string, prefix: string) {
    |prefix| <= |s| && s[..|prefix|] == prefix
  }

  predicate EndsWith(s: string, suffix: string) {
    |suffix| <= |s| && s[|s| - |suffix|..] == suffix
  }

  class GeminiClient {
    /** The key given to the constructor; `None` stands for Python's `None`. */
    const apiKey: Option<string>

    constructor (apiKey: Option<string>)
      ensures this.apiKey == apiKey
    {
      this.apiKey := apiKey;
    }

    /** `not self.api_key` is false. */
    predicate HasKey() {
      apiKey.Some? && apiKey.value != ""
    }

    /** `get_gemini_response(prompt, search_internet)`. */
    function Response(prompt: string, searchInternet: bool := false): string {
      if !HasKey() then MissingKeyMessage
      else if searchInternet then SearchResult(prompt) + "\n\n" + BaseResponse(prompt)
      else BaseResponse(prompt)
    }

    /**
     * Searching only puts the search result and a blank line in front of the
     * answer without search; without a key the flag changes nothing.
     */
    lemma SearchExtendsResponse(prompt: string)
      ensures HasKey() ==> Response(prompt, true) == SearchResult(prompt) + "\n\n" + Response(prompt)
      ensures !HasKey() ==> Response(prompt, true) == Response(prompt)
    {
    }

    /** The response reports an error exactly when no key is configured. */
    lemma ResponseIsErrorIffNoKey(prompt: string, searchInternet: bool)
      ensures StartsWith(Response(prompt, searchInternet), "Error:") <==> !HasKey()
    {
      var r := Response(prompt, searchInternet);
      if HasKey() {
        assert r[0] == 'S' by {
          if searchInternet {
            assert r == SearchResult(prompt) + ("\n\n" + BaseResponse(prompt));
            FirstOfConcat(SearchResult(prompt), "\n\n" + BaseResponse(prompt));
            FirstOfConcat("Simulated internet search result for '", prompt + "'.");
          } else {
            FirstOfConcat("Simulated Gemini response for: '", prompt + "'.");
          }
        }
        NotStartsWith(r, "Error:");
      } else {
        PrefixOfConcat("Error:", " API Key not configured for GeminiClient.");
      }
    }

    /** With a key, the response always ends with the response for the prompt itself. */
    lemma ResponseEndsWithBase(prompt: string, searchInternet: bool)
      requires HasKey()
      ensures EndsWith(Response(prompt, searchInternet), BaseResponse(prompt))
    {
      var r := Response(prompt, searchInternet);
      var b := BaseResponse(prompt);
      if searchInternet {
        var front := SearchResult(prompt) + "\n\n";
        assert r == front + b;
        assert r[|r| - |b|..] == b;
      } else {
        assert r[|r| - |b|..] == r[0..];
      }
    }

    /** The response mentions the prompt whenever a key is configured. */
    lemma ResponseMentionsPrompt(prompt: string, searchInternet: bool)
      requires HasKey()
      ensures Contains(Response(prompt, searchInternet), prompt)
    {
      var r := Response(prompt, searchInternet);
      var pre := if searchInternet then SearchResult(prompt) + "\n\n" + "Simulated Gemini response for: '"
                 else "Simulated Gemini response for: '";
      assert r == pre + prompt + "'.";
      ContainsInLonger(pre, prompt, "'.");
    }
  }

  lemma NotStartsWith(s: string, prefix: string)
    requires s != [] && prefix != [] && s[0] != prefix[0]
    ensures !StartsWith(s, prefix)
  {
    if |prefix| <= |s| {
      assert s[..|prefix|][0] == s[0];
    }
  }

  lemma FirstOfConcat(a: string, b: string)
    requires a != []
    ensures (a + b)[0] == a[0]
  {
  }

  lemma PrefixOfConcat(a: string, b: string)
    ensures (a + b)[..|a|] == a
  {
  }
}
