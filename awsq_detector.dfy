/**
 * AwsQDetector.kt: the string rules that recognise the agent's activity, and
 * the two calls it makes into the coordinator.
 */
module AwsQDetector {
  import opened Wrappers
  import opened Text
  import opened Coordinator

  /** `checkLog`'s test: a tool-use event that touches the file system (case-sensitive). */
  predicate SignalsAiActivity(msg: Option<string>)
    ensures SignalsAiActivity(msg) <==>
      && msg.Some?
      && (exists i :: OccursAt(msg.value, "ToolUseEvent", i))
      && ((exists i :: OccursAt(msg.value, "fsReplace", i)) ||
          (exists i :: OccursAt(msg.value, "fsWrite", i)) ||
          (exists i :: OccursAt(msg.value, "fsDelete", i)))
  {
    match msg
    case None => false
    case Some(m) =>
      Contains(m, "ToolUseEvent") &&
      (Contains(m, "fsReplace") || Contains(m, "fsWrite") || Contains(m, "fsDelete"))
  }

  lemma NullOrVerblessLogIsIgnored(m: string)
    requires !Contains(m, "fsReplace") && !Contains(m, "fsWrite") && !Contains(m, "fsDelete")
    ensures !SignalsAiActivity(None)
    ensures !SignalsAiActivity(Some(m))
    ensures !SignalsAiActivity(Some("ToolUseEvent"))
  {
    assert !Contains("ToolUseEvent", "fsReplace") && !Contains("ToolUseEvent", "fsWrite")
      && !Contains("ToolUseEvent", "fsDelete") by {
      assert 'f' !in "ToolUseEvent";
      NoOccurrenceWithoutFirstChar("ToolUseEvent", "fsReplace");
      NoOccurrenceWithoutFirstChar("ToolUseEvent", "fsWrite");
      NoOccurrenceWithoutFirstChar("ToolUseEvent", "fsDelete");
    }
  }

  /** Matching is case-sensitive: a lower-case marker is not a signal. */
  lemma LogMatchIsCaseSensitive()
    ensures SignalsAiActivity(Some("ToolUseEvent fsWrite"))
    ensures !SignalsAiActivity(Some("tooluseevent fsWrite"))
  {
    var good := "ToolUseEvent fsWrite";
    assert OccursAt(good, "ToolUseEvent", 0) by { assert good[0..12] == "ToolUseEvent"; }
    assert OccursAt(good, "fsWrite", 13) by { assert good[13..20] == "fsWrite"; }
    var bad := "tooluseevent fsWrite";
    assert 'T' !in bad;
    NoOccurrenceWithoutFirstChar(bad, "ToolUseEvent");
  }

  /** `checkLog`: the log handler signals the coordinator on a matching line. */
  method CheckLog(manager: CheckpointManager, msg: Option<string>, now: int)
    requires manager.Valid() && manager.clock <= now
    modifies manager
    ensures manager.Valid()
    ensures manager.State() ==
      if SignalsAiActivity(msg) then SignalStep(old(manager.State()), now) else old(manager.State())
  {
    if msg.None? {
      return;
    }
    var m := msg.value;
    if Contains(m, "ToolUseEvent") && (Contains(m, "fsReplace") || Contains(m, "fsWrite") || Contains(m, "fsDelete")) {
      manager.SignalAiActivity(now);
    }
  }

  const PATH_KEY: string := "\"path\":"

  /** Java's regex `\s`. */
  predicate IsRegexSpace(c: char) {
    c == ' ' || c == '\t' || c == '\n' || c == '\U{0B}' || c == '\U{0C}' || c == '\r'
  }

  /** The end of the run of `\s` characters starting at `i`. */
  function SkipSpaces(s: string, i: nat): (j: nat)
    requires i <= |s|
    ensures i <= j <= |s|
    ensures forall k :: i <= k < j ==> IsRegexSpace(s[k])
    ensures j < |s| ==> !IsRegexSpace(s[j])
    decreases |s| - i
  {
    if i < |s| && IsRegexSpace(s[i]) then SkipSpaces(s, i + 1) else i
  }

  /** The end of the run of non-quote characters starting at `i`. */
  function QuoteFree(s: string, i: nat): (j: nat)
    requires i <= |s|
    ensures i <= j <= |s|
    ensures forall k :: i <= k < j ==> s[k] != '"'
    ensures j < |s| ==> s[j] == '"'
    decreases |s| - i
  {
    if i < |s| && s[i] != '"' then QuoteFree(s, i + 1) else i
  }

  /**
   * The regex `"path":\s*"([^"]+)"` anchored at `i`, with its group. Greedy
   * matching cannot backtrack usefully here: fewer spaces or a shorter group
   * would leave a space or a non-quote where a quote is needed.
   */
  function MatchAt(s: string, i: nat): Option<string>
    requires i <= |s|
  {
    if !OccursAt(s, PATH_KEY, i) then None
    else
      var j := SkipSpaces(s, i + |PATH_KEY|);
      if j < |s| && s[j] == '"' then
        var k := QuoteFree(s, j + 1);
        if j + 1 < k < |s| then Some(s[j + 1..k]) else None
      else None
  }

  /** What it means for the regex to match at `i` with group `v`. */
  ghost predicate RegexMatchesAt(s: string, i: nat, v: string) {
    exists j :: i + |PATH_KEY| <= j && OccursAt(s, PATH_KEY, i) &&
      |v| > 0 && '"' !in v && OccursAt(s, "\"" + v + "\"", j) &&
      (forall k :: i + |PATH_KEY| <= k < j ==> IsRegexSpace(s[k]))
  }

  /** The run of spaces ends exactly where the first non-space is. */
  lemma {:induction false} SkipSpacesEndsAt(s: string, from: nat, j: nat)
    requires from <= j <= |s|
    requires forall k :: from <= k < j ==> IsRegexSpace(s[k])
    requires j < |s| ==> !IsRegexSpace(s[j])
    ensures SkipSpaces(s, from) == j
    decreases j - from
  {
    if from < j {
      SkipSpacesEndsAt(s, from + 1, j);
    }
  }

  /** The run of non-quotes ends exactly at the first quote. */
  lemma {:induction false} QuoteFreeEndsAt(s: string, from: nat, k: nat)
    requires from <= k < |s| && s[k] == '"'
    requires forall m :: from <= m < k ==> s[m] != '"'
    ensures QuoteFree(s, from) == k
    decreases k - from
  {
    if from < k {
      QuoteFreeEndsAt(s, from + 1, k);
    }
  }

  /** `MatchAt` finds only what the regex matches. */
  lemma MatchAtSound(s: string, i: nat)
    requires i <= |s| && MatchAt(s, i).Some?
    ensures RegexMatchesAt(s, i, MatchAt(s, i).value)
  {
    var v := MatchAt(s, i).value;
    var j := SkipSpaces(s, i + |PATH_KEY|);
    var k := QuoteFree(s, j + 1);
    assert v == s[j + 1..k];
    assert '"' !in v by {
      forall m | 0 <= m < |v| ensures v[m] != '"' {
        assert v[m] == s[j + 1 + m];
      }
    }
    var w := "\"" + v + "\"";
    assert s[j..k + 1] == w by {
      forall m | 0 <= m < |w| ensures s[j..k + 1][m] == w[m] {
        if 0 < m <= |v| {
          assert w[m] == v[m - 1] == s[j + m];
        }
      }
    }
    assert OccursAt(s, w, j);
  }

  /** A quoted quote-free value at `j`: the quote-free run after `j` is the value. */
  lemma QuotedValueAt(s: string, j: nat, v: string)
    requires '"' !in v && OccursAt(s, "\"" + v + "\"", j)
    ensures j + |v| + 1 < |s| && s[j] == '"'
    ensures QuoteFree(s, j + 1) == j + 1 + |v| && s[j + 1..j + 1 + |v|] == v
  {
    var w := "\"" + v + "\"";
    OccursAtChars(s, w, j);
    assert s[j + 0] == w[0];
    var e := j + 1 + |v|;
    assert s[e] == w[|v| + 1];
    forall m | j + 1 <= m < e ensures s[m] != '"' {
      assert s[j + (m - j)] == w[m - j] == v[m - j - 1];
    }
    QuoteFreeEndsAt(s, j + 1, e);
    forall m | 0 <= m < |v| ensures s[j + 1..e][m] == v[m] {
      assert s[j + (m + 1)] == w[m + 1];
    }
  }

  /** What the regex matches at `i`, `MatchAt` finds. */
  lemma MatchAtComplete(s: string, i: nat, v: string)
    requires i <= |s| && RegexMatchesAt(s, i, v)
    ensures MatchAt(s, i) == Some(v)
  {
    var j :| i + |PATH_KEY| <= j && OccursAt(s, PATH_KEY, i) &&
      |v| > 0 && '"' !in v && OccursAt(s, "\"" + v + "\"", j) &&
      (forall k :: i + |PATH_KEY| <= k < j ==> IsRegexSpace(s[k]));
    MatchAtCompleteWith(s, i, j, v);
  }

  /** `MatchAtComplete` for a given position `j` of the opening quote. */
  lemma MatchAtCompleteWith(s: string, i: nat, j: nat, v: string)
    requires i + |PATH_KEY| <= j && OccursAt(s, PATH_KEY, i)
    requires |v| > 0 && '"' !in v && OccursAt(s, "\"" + v + "\"", j)
    requires forall k :: i + |PATH_KEY| <= k < j ==> IsRegexSpace(s[k])
    ensures MatchAt(s, i) == Some(v)
  {
    QuotedValueAt(s, j, v);
    SkipSpacesEndsAt(s, i + |PATH_KEY|, j);
  }

  /** `MatchAt` is exactly the regex at one position: soundness and completeness. */
  lemma MatchAtIsRegex(s: string, i: nat, v: string)
    requires i <= |s|
    ensures MatchAt(s, i) == Some(v) <==> RegexMatchesAt(s, i, v)
  {
    if MatchAt(s, i) == Some(v) {
      MatchAtSound(s, i);
    }
    if RegexMatchesAt(s, i, v) {
      MatchAtComplete(s, i, v);
    }
  }

  /** The leftmost match position at or after `from`. */
  function FindMatch(s: string, from: nat): (r: Option<nat>)
    requires from <= |s|
    ensures r.Some? ==> from <= r.value <= |s| && MatchAt(s, r.value).Some?
    ensures r.Some? ==> forall j :: from <= j < r.value ==> MatchAt(s, j).None?
    ensures r.None? ==> forall j :: from <= j <= |s| ==> MatchAt(s, j).None?
    decreases |s| - from
  {
    if MatchAt(s, from).Some? then Some(from)
    else if from == |s| then None
    else FindMatch(s, from + 1)
  }

  /**
   * `extractPathFromLog`: the group of the leftmost match of
   * `"path":\s*"([^"]+)"`, or none. (The source never calls it.)
   */
  function ExtractPathFromLog(msg: string): (r: Option<string>)
    ensures r.Some? ==> |r.value| > 0 && '"' !in r.value
    ensures r.Some? ==>
      exists i :: (0 <= i <= |msg| && RegexMatchesAt(msg, i, r.value) &&
                   forall j, v :: 0 <= j < i ==> !RegexMatchesAt(msg, j, v))
    ensures r.None? ==> forall i, v :: 0 <= i <= |msg| ==> !RegexMatchesAt(msg, i, v)
  {
    match FindMatch(msg, 0)
    case None =>
      assert forall i, v :: 0 <= i <= |msg| ==> !RegexMatchesAt(msg, i, v) by {
        forall i: nat, v | i <= |msg| ensures !RegexMatchesAt(msg, i, v) {
          MatchAtIsRegex(msg, i, v);
        }
      }
      None
    case Some(i) =>
      var v := MatchAt(msg, i).value;
      MatchAtIsRegex(msg, i, v);
      assert forall j, w :: 0 <= j < i ==> !RegexMatchesAt(msg, j, w) by {
        forall j: nat, w | j < i ensures !RegexMatchesAt(msg, j, w) {
          MatchAtIsRegex(msg, j, w);
        }
      }
      Some(v)
  }

  /** Every character of an occurrence lines up with the pattern. */
  lemma OccursAtChars(s: string, t: string, i: int)
    requires OccursAt(s, t, i)
    ensures forall k :: 0 <= k < |t| ==> s[i + k] == t[k]
  {
    forall k | 0 <= k < |t| ensures s[i + k] == t[k] {
      assert s[i..i + |t|][k] == s[i + k];
    }
  }

  /** A match can start only at a quote followed by `p`. */
  lemma MatchStartsAtQuote(s: string, i: nat)
    requires i <= |s|
    ensures MatchAt(s, i).Some? ==> i + 1 < |s| && s[i] == '"' && s[i + 1] == 'p'
  {
    if OccursAt(s, PATH_KEY, i) {
      OccursAtChars(s, PATH_KEY, i);
      assert s[i + 0] == PATH_KEY[0] && s[i + 1] == PATH_KEY[1];
    }
  }

  lemma ExtractPathFound()
    ensures ExtractPathFromLog("{\"path\":  \"src/a.kt\"}") == Some("src/a.kt")
  {
    var s := "{\"path\":  \"src/a.kt\"}";
    MatchStartsAtQuote(s, 0);
    FoundExampleMatch(s);
    assert FindMatch(s, 0) == Some(1);
  }

  lemma FoundExampleMatch(s: string)
    requires s == "{\"path\":  \"src/a.kt\"}"
    ensures MatchAt(s, 1) == Some("src/a.kt")
  {
    assert OccursAt(s, PATH_KEY, 1) by { assert s[1..8] == PATH_KEY; }
    assert OccursAt(s, "\"" + "src/a.kt" + "\"", 10) by { assert s[10..20] == "\"src/a.kt\""; }
    assert IsRegexSpace(s[8]) && IsRegexSpace(s[9]);
    MatchAtCompleteWith(s, 1, 10, "src/a.kt");
  }

  /** The group needs at least one character, so an empty value is no match. */
  lemma ExtractPathNeedsNonEmptyValue()
    ensures ExtractPathFromLog("{\"path\": \"\"}") == None
  {
    var t := "{\"path\": \"\"}";
    forall i | 0 <= i <= |t| ensures MatchAt(t, i).None? {
      MatchStartsAtQuote(t, i);
      if i == 1 {
        assert SkipSpaces(t, 8) == 9;
        assert QuoteFree(t, 10) == 10;
      }
    }
    assert FindMatch(t, 0).None?;
  }

  /** `isAwsQHelperCommand` (never called by the source). */
  predicate IsAwsQHelperCommand(name: string)
    ensures IsAwsQHelperCommand(name) <==>
      name == [] ||
      exists i :: OccursAtIgnoreCase(name, "Insert", i) ||
        OccursAtIgnoreCase(name, "Choose Lookup Item", i) ||
        OccursAtIgnoreCase(name, "Typing", i)
  {
    ContainsIgnoreCase(name, "Insert") ||
    ContainsIgnoreCase(name, "Choose Lookup Item") ||
    ContainsIgnoreCase(name, "Typing") ||
    name == []
  }

  lemma HelperCommandIgnoresCase()
    ensures IsAwsQHelperCommand("")
    ensures IsAwsQHelperCommand("EDITOR TYPING")
    ensures !IsAwsQHelperCommand("Reformat Code")
  {
    assert OccursAtIgnoreCase("EDITOR TYPING", "Typing", 7);
    assert !IsAwsQHelperCommand("Reformat Code") by {
      var n := "Reformat Code";
      forall i | 0 <= i <= |n| - 6 ensures !OccursAtIgnoreCase(n, "Insert", i) && !OccursAtIgnoreCase(n, "Typing", i) {
        assert LowerAscii(n[i + 0]) != LowerAscii("Insert"[0]);
        assert LowerAscii(n[i + 0]) != LowerAscii("Typing"[0]) || LowerAscii(n[i + 1]) != LowerAscii("Typing"[1]);
      }
    }
  }

  /** An agent frame: names one of the agent's packages, in any case. */
  predicate IsAwsQFrame(frame: string) {
    ContainsIgnoreCase(frame, "software.aws.toolkits") ||
    ContainsIgnoreCase(frame, "jetbrains.services.amazonq")
  }

  /** `take(n)`. */
  function Take(frames: seq<string>, n: nat): (r: seq<string>)
    ensures |r| == if |frames| < n then |frames| else n
    ensures forall i :: 0 <= i < |r| ==> r[i] == frames[i]
  {
    if |frames| <= n then frames else frames[..n]
  }

  /** `any { ... }` over frames. */
  function AnyAwsQFrame(frames: seq<string>): (r: bool)
    ensures r <==> exists i :: 0 <= i < |frames| && IsAwsQFrame(frames[i])
  {
    if frames == [] then false
    else IsAwsQFrame(frames[0]) || AnyAwsQFrame(frames[1..])
  }

  const FRAMES_TO_CHECK: nat := 30

  /** `isAwsQStackTrace` over the current thread's stack frames, innermost call first. */
  predicate IsAwsQStackTrace(frames: seq<string>)
    ensures IsAwsQStackTrace(frames) <==>
      exists i :: 0 <= i < |frames| && i < FRAMES_TO_CHECK && IsAwsQFrame(frames[i])
  {
    AnyAwsQFrame(Take(frames, FRAMES_TO_CHECK))
  }

  /** Frames past index 29 never matter. */
  lemma DeepFramesIgnored(frames: seq<string>, deeper: seq<string>)
    requires |frames| >= FRAMES_TO_CHECK
    ensures IsAwsQStackTrace(frames + deeper) == IsAwsQStackTrace(frames)
  {
    assert forall i :: 0 <= i < FRAMES_TO_CHECK ==> (frames + deeper)[i] == frames[i];
  }

  /** `triggerCheckpoint` (never called by the source): routes to one of the two requests. */
  method TriggerCheckpoint(manager: CheckpointManager, isHuman: bool, filePath: Option<string>, now: int)
    requires manager.Valid() && manager.clock <= now
    modifies manager
    ensures manager.Valid()
    ensures manager.State() ==
      if isHuman then HumanRequestStep(old(manager.State()), now)
      else AwsQRequestStep(old(manager.State()), filePath, now)
  {
    if isHuman {
      manager.RequestHumanCheckpoint(now);
    } else {
      manager.RequestAwsQCheckpoint(filePath, now);
    }
  }
}
