/** `getPocketbaseError` (src/App.tsx:37-53): the message shown for a failed
    request, taken from the most specific place of the error object that has
    one. */
module Errors {

  /** A nested object of an error (`data`, `originalError`): an object with a
      `message` (empty when missing), or anything else (absent, null, not an
      object). */
  datatype Part = NotObject | Part(message: string)

  /** The thrown value: an object with the fields the helper reads, or
      anything else. */
  datatype Thrown = Other | Thrown(data: Part, originalError: Part, message: string)

  /** The helper: `data.message`, else `originalError.message`, else
      `message`, else the default; an empty string does not count, as in the
      source's truthiness tests. */
  function PocketbaseError(err: Thrown, default: string): (s: string)
    ensures s == default || (err.Thrown? && s != "" &&
      (s == err.message || (err.data.Part? && s == err.data.message) ||
       (err.originalError.Part? && s == err.originalError.message)))
    ensures err.Thrown? && err.data.Part? && err.data.message != "" ==> s == err.data.message
  {
    if err.Thrown? then
      if err.data.Part? && err.data.message != "" then err.data.message
      else if err.originalError.Part? && err.originalError.message != "" then err.originalError.message
      else if err.message != "" then err.message
      else default
    else default
  }

  /** The helper's default message ("An unknown error occurred."). */
  const UNKNOWN_ERROR: string := "Произошла неизвестная ошибка."

  /** The helper called without a default: a non-object falls back to the
      unknown-error message, and the result is never empty. */
  function DefaultMessage(err: Thrown): (s: string)
    ensures s != ""
    ensures err.Other? ==> s == UNKNOWN_ERROR
    ensures s == UNKNOWN_ERROR || s in Candidates(err)
  {
    PocketbaseError(err, UNKNOWN_ERROR)
  }

  /** The message each place offers, most specific first ("" for none). */
  function Candidates(err: Thrown): seq<string>
  {
    if err.Other? then []
    else
      [ if err.data.Part? then err.data.message else "",
        if err.originalError.Part? then err.originalError.message else "",
        err.message ]
  }

  /** The first non-empty string of `s`, or `default`. */
  function FirstNonEmpty(s: seq<string>, default: string): string
  {
    if |s| == 0 then default else if s[0] != "" then s[0] else FirstNonEmpty(s[1..], default)
  }

  /** The helper picks the first message on offer, in order of specificity. */
  lemma PicksFirstOnOffer(err: Thrown, default: string)
    ensures PocketbaseError(err, default) == FirstNonEmpty(Candidates(err), default)
  {
    if err.Thrown? {
      var c := Candidates(err);
      assert FirstNonEmpty([c[2]], default) == (if c[2] != "" then c[2] else default) by {
        assert [c[2]][1..] == [];
      }
      assert FirstNonEmpty([c[1], c[2]], default) == (if c[1] != "" then c[1] else FirstNonEmpty([c[2]], default)) by {
        assert [c[1], c[2]][1..] == [c[2]];
      }
      assert c[1..] == [c[1], c[2]];
    }
  }

  /** With a non-empty default the message shown is never empty. */
  lemma NeverEmpty(err: Thrown, default: string)
    requires default != ""
    ensures PocketbaseError(err, default) != ""
  {
  }
}
