/**
 * `generateRPSRecommendation`: the early-round guard, the optional external
 * advisory call, validation of its reply, and the fall-back to the heuristic.
 * The external call is an input: whether a client is configured, and what the
 * call produced (an exception, or the text it extracted from the response).
 */
module Advisor {
  import opened Options
  import opened Moves
  import opened Heuristic

  /** The outcome of the external call: it threw, or it answered with (possibly empty) text. */
  datatype Reply = Threw | Answered(text: string)

  /**
   * The recommendation for `currentRound`: "" in the first two rounds or with
   * fewer than two history entries; otherwise the normalised reply when it is
   * exactly one of the three move names, and the heuristic in every other case.
   */
  function Generate(history: seq<HistoryEntry>, currentRound: int, name: Option<PlayerName>,
                    clientConfigured: bool, reply: Reply, normalise: string -> string): (r: string)
    ensures r == "" <==> currentRound < 3 || |history| < 2
    ensures r == "" || r in LegalNames
  {
    if currentRound < 3 || |history| < 2 then ""
    else if !clientConfigured then Fallback(history, name)
    else match reply
      case Threw => Fallback(history, name)
      case Answered(text) =>
        if text == "" then Fallback(history, name)
        else
          var recommendation := normalise(text);
          if recommendation in LegalNames then recommendation else Fallback(history, name)
  }

  /** Past the guard, a non-empty reply whose normal form is a move name is returned as it is. */
  lemma ReplyAccepted(history: seq<HistoryEntry>, currentRound: int, name: Option<PlayerName>,
                      text: string, normalise: string -> string)
    requires currentRound >= 3 && |history| >= 2
    requires text != "" && normalise(text) in LegalNames
    ensures Generate(history, currentRound, name, true, Answered(text), normalise) == normalise(text)
    ensures Parse(Generate(history, currentRound, name, true, Answered(text), normalise)).Some?
  {
  }

  /**
   * Past the guard, a missing client, a thrown call, an empty reply or a reply
   * outside the vocabulary all give the heuristic's answer.
   */
  lemma FailureFallsBack(history: seq<HistoryEntry>, currentRound: int, name: Option<PlayerName>,
                         clientConfigured: bool, reply: Reply, normalise: string -> string)
    requires currentRound >= 3 && |history| >= 2
    requires !clientConfigured || reply == Threw || reply.text == "" || normalise(reply.text) !in LegalNames
    ensures Generate(history, currentRound, name, clientConfigured, reply, normalise) == Fallback(history, name)
  {
  }

  /** Without a client the reply is never consulted. */
  lemma NoClientIgnoresReply(history: seq<HistoryEntry>, currentRound: int, name: Option<PlayerName>,
                             reply1: Reply, normalise1: string -> string, reply2: Reply, normalise2: string -> string)
    ensures Generate(history, currentRound, name, false, reply1, normalise1)
         == Generate(history, currentRound, name, false, reply2, normalise2)
  {
  }

  // ---------------------------------------------------------------------------
  // An ASCII instance of `trim().toLowerCase()`

  /** The characters `String.prototype.trim` removes: white space and line terminators. */
  predicate IsTrimmable(c: char) {
    var k := c as int;
    (0x09 <= k <= 0x0D) || k == 0x20 || k == 0xA0 || k == 0x1680 || (0x2000 <= k <= 0x200A)
    || k == 0x2028 || k == 0x2029 || k == 0x202F || k == 0x205F || k == 0x3000 || k == 0xFEFF
  }

  /** Drops the leading trimmable characters: the result is the suffix after them. */
  function TrimStart(s: string): (r: string)
    ensures |r| <= |s| && r == s[|s| - |r|..]
    ensures forall i :: 0 <= i < |s| - |r| ==> IsTrimmable(s[i])
    ensures r != [] ==> !IsTrimmable(r[0])
  {
    if s != [] && IsTrimmable(s[0]) then TrimStart(s[1..]) else s
  }

  /** Drops the trailing trimmable characters: the result is the prefix before them. */
  function TrimEnd(s: string): (r: string)
    ensures |r| <= |s| && r == s[..|r|]
    ensures forall i :: |r| <= i < |s| ==> IsTrimmable(s[i])
    ensures r != [] ==> !IsTrimmable(r[|r| - 1])
  {
    if s != [] && IsTrimmable(s[|s| - 1]) then TrimEnd(s[..|s| - 1]) else s
  }

  /** `String.prototype.trim`. */
  function Trim(s: string): string {
    TrimEnd(TrimStart(s))
  }

  /** `toLowerCase` on one character, for the ASCII letters only. */
  function LowerChar(c: char): (d: char)
    ensures !('A' <= d <= 'Z')
    ensures 'A' <= c <= 'Z' ==> d as int == c as int + 32
    ensures !('A' <= c <= 'Z') ==> d == c
  {
    if 'A' <= c <= 'Z' then (c as int + 32) as char else c
  }

  /** `toLowerCase` on a string whose letters are ASCII: each character is lowered in place. */
  function LowerAscii(s: string): (r: string)
    ensures |r| == |s|
    ensures forall i :: 0 <= i < |s| ==> r[i] == LowerChar(s[i])
  {
    seq(|s|, i requires 0 <= i < |s| => LowerChar(s[i]))
  }

  /** `text.trim().toLowerCase()` for replies whose letters are ASCII. */
  function AsciiNormalise(text: string): string {
    LowerAscii(Trim(text))
  }

  /** A string with nothing to trim at either end is its own trim. */
  lemma TrimUntrimmed(s: string)
    requires s != [] ==> !IsTrimmable(s[0]) && !IsTrimmable(s[|s| - 1])
    ensures Trim(s) == s
  {
  }

  /** Normalising twice is normalising once: a normalised reply is validated exactly as the original. */
  lemma AsciiNormaliseIdempotent(text: string)
    ensures AsciiNormalise(AsciiNormalise(text)) == AsciiNormalise(text)
  {
    var t := Trim(text);
    var n := LowerAscii(t);
    if n != [] {
      assert !IsTrimmable(t[0]) && !IsTrimmable(t[|t| - 1]);
      assert !IsTrimmable(n[0]) && !IsTrimmable(n[|n| - 1]);
    }
    TrimUntrimmed(n);
    forall i | 0 <= i < |n| ensures LowerChar(n[i]) == n[i] {
    }
    assert LowerAscii(n) == n;
  }

  /** One leading blank and one trailing newline are trimmed from `" Paper\n"`. */
  lemma TrimPadded()
    ensures Trim(" Paper\n") == "Paper"
  {
    var rest, inner := "Paper\n", "Paper";
    assert TrimStart(" Paper\n") == rest by {
      assert IsTrimmable(' ') && !IsTrimmable('P');
      assert " Paper\n"[0] == ' ' && " Paper\n"[1..] == rest && rest[0] == 'P';
      assert TrimStart(rest) == rest;
    }
    assert TrimEnd(rest) == inner by {
      assert IsTrimmable('\n') && !IsTrimmable('r');
      assert rest[5] == '\n' && rest[..5] == inner && inner[4] == 'r';
      assert TrimEnd(inner) == inner;
    }
  }

  /** Trimming and lowering a padded, capitalised move name gives the move name. */
  lemma AsciiNormalisePadded()
    ensures AsciiNormalise(" Paper\n") == "paper"
  {
    TrimPadded();
    assert LowerAscii("Paper")[0] == 'p';
  }

  /** A capitalised, padded reply is recognised as the move it names. */
  lemma PaddedReplyAccepted(history: seq<HistoryEntry>, name: Option<PlayerName>)
    requires |history| >= 2
    ensures Generate(history, 3, name, true, Answered(" Paper\n"), AsciiNormalise) == "paper"
  {
    AsciiNormalisePadded();
    ReplyAccepted(history, 3, name, " Paper\n", AsciiNormalise);
  }
}
