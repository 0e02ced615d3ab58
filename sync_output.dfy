/**
  What one run of the mail-sync tool for one channel leads to, once the
  subprocess has exited: whether a desktop notification is launched, the
  exact argument vector of that launch, and the log entries written.
  The subprocess itself is not modelled; its stdout and stderr (already
  decoded to text) are inputs.
*/
module SyncOutput {
  import opened Wrappers

  // ---------------------------------------------------------------------
  // The new-mail pattern `pulled (\d) new message\(s\)`
  // ---------------------------------------------------------------------

  const PREFIX := "pulled "
  const SUFFIX := " new message(s)"
  /** Every match has this length: the prefix, exactly one digit, the suffix. */
  const MATCH_LENGTH := |PREFIX| + 1 + |SUFFIX|

  /** `\d`, restricted to ASCII digits. */
  predicate IsDigit(c: char) {
    '0' <= c <= '9'
  }

  /** int() of a one-character digit string. */
  function DigitValue(c: char): (n: nat)
    requires IsDigit(c)
    ensures n <= 9
    ensures n == 0 <==> c == '0'
  {
    c as int - '0' as int
  }

  /** The pattern matches the text that starts at position i of s. */
  predicate MatchesAt(s: string, i: nat) {
    && i + MATCH_LENGTH <= |s|
    && s[i..i + |PREFIX|] == PREFIX
    && IsDigit(s[i + |PREFIX|])
    && s[i + |PREFIX| + 1..i + MATCH_LENGTH] == SUFFIX
  }

  /** i is where the leftmost match of s starts. */
  ghost predicate FirstMatchAt(s: string, i: nat) {
    MatchesAt(s, i) && forall j :: 0 <= j < i ==> !MatchesAt(s, j)
  }

  /** A successful search: where the match starts and its captured group 1. */
  datatype Match = Match(start: nat, group: char)

  /** Scans s from position `from` for the leftmost match. */
  function SearchFrom(s: string, from: nat): (r: Option<nat>)
    ensures r.Some? ==> from <= r.value && MatchesAt(s, r.value)
    ensures r.Some? ==> forall j :: from <= j < r.value ==> !MatchesAt(s, j)
    ensures r.None? ==> forall j :: from <= j ==> !MatchesAt(s, j)
    decreases |s| - from
  {
    if |s| < from + MATCH_LENGTH then None
    else if MatchesAt(s, from) then Some(from)
    else SearchFrom(s, from + 1)
  }

  /** re.search of the pattern over the whole of s. */
  function Search(s: string): (r: Option<Match>)
    ensures r.Some? ==> FirstMatchAt(s, r.value.start)
    ensures r.Some? ==> r.value.group == s[r.value.start + |PREFIX|] && IsDigit(r.value.group)
    ensures r.None? <==> forall j :: !MatchesAt(s, j)
  {
    match SearchFrom(s, 0)
    case None => None
    case Some(i) => Some(Match(i, s[i + |PREFIX|]))
  }

  /** The guard of the notification: non-empty stdout whose first match counts more than zero. */
  predicate ShouldNotify(stdout: string) {
    && stdout != ""
    && match Search(stdout)
       case None => false
       case Some(m) => IsDigit(m.group) && DigitValue(m.group) > 0
  }

  /**
    A notification is launched exactly when stdout has a match and the digit
    of its leftmost match is not zero; later matches are never looked at.
  */
  lemma NotifyIffFirstMatchNonZero(stdout: string)
    ensures ShouldNotify(stdout) <==>
              exists i: nat :: FirstMatchAt(stdout, i) && stdout[i + |PREFIX|] != '0'
  {
  }

  /** Text without any match never notifies. */
  lemma NoMatchNeverNotifies(stdout: string)
    requires forall j :: !MatchesAt(stdout, j)
    ensures !ShouldNotify(stdout)
  {
  }

  /**
    The pattern captures exactly one digit, so the sentence for a count of
    two or more digits contains no match at all.
  */
  lemma {:induction false} MultiDigitCountNeverMatches(digits: string)
    requires |digits| >= 2
    requires forall k :: 0 <= k < |digits| ==> IsDigit(digits[k])
    ensures forall i: nat :: !MatchesAt(PREFIX + digits + SUFFIX, i)
    ensures !ShouldNotify(PREFIX + digits + SUFFIX)
  {
    var s := PREFIX + digits + SUFFIX;
    forall i: nat ensures !MatchesAt(s, i) {
      if i + MATCH_LENGTH <= |s| && i == 0 {
        // the character after the first digit is the second digit, not the space of the suffix
        assert s[i + |PREFIX| + 1..i + MATCH_LENGTH][0] == digits[1];
      } else if i + MATCH_LENGTH <= |s| {
        // only position 0 holds a 'p': the rest of the prefix and the digits do not
        assert s[i..i + |PREFIX|][0] == s[i];
        if i < |PREFIX| {
          assert s[i] == PREFIX[i];
        } else {
          assert s[i] == digits[i - |PREFIX|];
        }
      }
    }
    NoMatchNeverNotifies(s);
  }

  /** "pulled 12 new message(s)": the count twelve does not notify. */
  lemma TwelveDoesNotNotify()
    ensures !ShouldNotify("pulled 12 new message(s)")
  {
    assert "pulled 12 new message(s)" == PREFIX + "12" + SUFFIX;
    MultiDigitCountNeverMatches("12");
  }

  /** "pulled 3 new message(s)" notifies, and the captured count is 3. */
  lemma ThreeNotifies()
    ensures Search("pulled 3 new message(s)") == Some(Match(0, '3'))
    ensures ShouldNotify("pulled 3 new message(s)")
  {
    assert MatchesAt("pulled 3 new message(s)", 0);
  }

  /** "pulled 0 new message(s)" matches but does not notify. */
  lemma ZeroDoesNotNotify()
    ensures Search("pulled 0 new message(s)") == Some(Match(0, '0'))
    ensures !ShouldNotify("pulled 0 new message(s)")
  {
    var s := "pulled 0 new message(s)";
    assert s[..7] == PREFIX && s[8..23] == SUFFIX;
    assert MatchesAt(s, 0);
  }

  // ---------------------------------------------------------------------
  // The notify-send argument vector
  // ---------------------------------------------------------------------

  const APP_NAME_PREFIX := "New Mail in "

  /** Arguments of the notify-send launch for a channel, with the icon's path. */
  function NotifyArgv(channel: string, icon: string): (argv: seq<string>)
    ensures |argv| == 8
    ensures argv[0] == "notify-send"
    ensures argv[1] == "-t" && argv[2] == "5000" && argv[3] == "-a"
    ensures argv[4] == APP_NAME_PREFIX + channel
    ensures argv[5] == "-e"
    ensures argv[6] == "-i" && argv[7] == icon
  {
    ["notify-send", "-t", "5000", "-a", APP_NAME_PREFIX + channel, "-e", "-i", icon]
  }

  /** The channel is named by the `-a` argument only: every other argument is the same for all channels. */
  lemma ChannelOnlyInAppName(c1: string, c2: string, icon: string, k: nat)
    requires k < 8 && k != 4
    ensures NotifyArgv(c1, icon)[k] == NotifyArgv(c2, icon)[k]
  {
  }

  /** The `-a` argument names the channel unambiguously. */
  lemma {:induction false} AppNameDeterminesChannel(c1: string, c2: string, icon: string)
    requires NotifyArgv(c1, icon) == NotifyArgv(c2, icon)
    ensures c1 == c2
  {
    var a1, a2 := NotifyArgv(c1, icon)[4], NotifyArgv(c2, icon)[4];
    assert a1[|APP_NAME_PREFIX|..] == c1;
    assert a2[|APP_NAME_PREFIX|..] == c2;
  }

  // ---------------------------------------------------------------------
  // The log entries of one run
  // ---------------------------------------------------------------------

  datatype Level = Info | Error

  datatype LogEntry = LogEntry(level: Level, message: string)

  function StartEntry(channel: string): LogEntry {
    LogEntry(Info, "Running mbsync for " + channel)
  }

  function ReportEntry(channel: string, stdout: string): LogEntry {
    LogEntry(Info, channel + " reports: " + stdout)
  }

  function ErrorEntry(channel: string, stderr: string): LogEntry {
    LogEntry(Error, channel + " reports error: " + stderr)
  }

  function DoneEntry(channel: string): LogEntry {
    LogEntry(Info, "Done running " + channel)
  }

  /** The entries one run writes, in order. */
  function RunLog(channel: string, stdout: string, stderr: string): (log: seq<LogEntry>)
    ensures 2 <= |log| <= 4
    ensures log[0] == StartEntry(channel)
    ensures log[|log| - 1] == DoneEntry(channel)
  {
    [StartEntry(channel)]
    + (if stdout != "" then [ReportEntry(channel, stdout)] else [])
    + (if stderr != "" then [ErrorEntry(channel, stderr)] else [])
    + [DoneEntry(channel)]
  }

  /** The log holds the report of stdout exactly when stdout is non-empty. */
  lemma ReportLoggedIffStdout(channel: string, stdout: string, stderr: string)
    ensures ReportEntry(channel, stdout) in RunLog(channel, stdout, stderr) <==> stdout != ""
  {
  }

  /** The log holds an error-level entry exactly when stderr is non-empty, and it is the report of stderr. */
  lemma ErrorLoggedIffStderr(channel: string, stdout: string, stderr: string)
    ensures var log := RunLog(channel, stdout, stderr);
            (exists i :: 0 <= i < |log| && log[i].level == Error) <==> stderr != ""
    ensures var log := RunLog(channel, stdout, stderr);
            forall i :: 0 <= i < |log| && log[i].level == Error ==> log[i] == ErrorEntry(channel, stderr)
  {
    var log := RunLog(channel, stdout, stderr);
    if stderr != "" {
      assert log[|log| - 2] == ErrorEntry(channel, stderr);
    }
  }

  /**
    The report of stdout comes right after the start entry and the error
    report right before the final entry; so when both are written, the
    stdout report comes first. The length counts the non-empty streams.
  */
  lemma LogOrder(channel: string, stdout: string, stderr: string)
    ensures var log := RunLog(channel, stdout, stderr);
            |log| == 2 + (if stdout != "" then 1 else 0) + (if stderr != "" then 1 else 0)
    ensures var log := RunLog(channel, stdout, stderr);
            stdout != "" ==> log[1] == ReportEntry(channel, stdout)
    ensures var log := RunLog(channel, stdout, stderr);
            stderr != "" ==> log[|log| - 2] == ErrorEntry(channel, stderr)
  {
  }

  // ---------------------------------------------------------------------
  // One whole run
  // ---------------------------------------------------------------------

  /** What one run leads to: the notify-send arguments, if one is launched, and the log. */
  datatype SyncRun = SyncRun(notification: Option<seq<string>>, log: seq<LogEntry>)

  /** run_mbsync after the subprocess has exited with the given output. */
  function RunMbsync(channel: string, stdout: string, stderr: string, icon: string): (run: SyncRun)
    ensures run.notification.Some? <==> ShouldNotify(stdout)
    ensures run.notification.Some? ==> run.notification.value == NotifyArgv(channel, icon)
    ensures run.log == RunLog(channel, stdout, stderr)
  {
    var notification := if ShouldNotify(stdout) then Some(NotifyArgv(channel, icon)) else None;
    SyncRun(notification, RunLog(channel, stdout, stderr))
  }

  /**
    The notification carries the channel but not the count: any two
    notifying outputs of one channel launch the same command.
  */
  lemma NotificationOmitsCount(channel: string, out1: string, out2: string, err1: string, err2: string, icon: string)
    requires ShouldNotify(out1) && ShouldNotify(out2)
    ensures RunMbsync(channel, out1, err1, icon).notification == RunMbsync(channel, out2, err2, icon).notification
  {
  }

  /** An empty stdout writes no report and launches nothing, whatever stderr holds. */
  lemma SilentRun(channel: string, stderr: string, icon: string)
    ensures RunMbsync(channel, "", stderr, icon).notification == None
    ensures |RunMbsync(channel, "", stderr, icon).log| == if stderr == "" then 2 else 3
  {
  }
}
