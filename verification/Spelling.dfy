/** The marks and words of the formats as they are spelled. */
module Spelling {
  import opened Bytes
  import Csv
  import JsonNumbers
  import JsonStrings
  import RestStream
  import Upload

  function Spell(s: bytes): (text: string)
    ensures |text| == |s|
  {
    seq(|s|, i requires 0 <= i < |s| => s[i] as char)
  }

  /** The bytes that CSV, JSON and SQL give a meaning. */
  lemma Marks()
    ensures Spell([Csv.QUOTE, Csv.COMMA, Csv.CR, Csv.LF]) == "\",\r\n"
    ensures Spell([JsonStrings.QUOTE, JsonStrings.BACKSLASH, JsonNumbers.MINUS, JsonNumbers.ZERO]) == "\"\\-0"
    ensures Spell([JsonStrings.LETTER_N, JsonStrings.LETTER_R, JsonStrings.LETTER_T, JsonStrings.LETTER_U]) == "nrtu"
    ensures Spell([RestStream.COMMA, RestStream.COLON]) == ",:"
    ensures Spell([Upload.APOSTROPHE, Upload.BACKSLASH, Upload.OPEN, Upload.CLOSE]) == "'\\()"
  {
  }

  /** The words between the parts of a response, and the missing value. */
  lemma Words()
    ensures Spell(NULL) == "null"
    ensures Spell(RestStream.QUERY3) == "],\"data\":["
    ensures Spell(RestStream.QUERY4) == "],\"rows\":"
    ensures Spell(RestStream.TIMING) == ",\"timing\":"
  {
  }
}
