/**
 * `GoGetPackageFix`: the quick fix that runs `go get <package>` and, when the
 * tool fails, shows its output as a warning.
 */
module GoGetPackage {
  import opened Options
  import opened JavaStrings

  const TITLE := "Something went wrong with `go get`"
  const GROUP := "Go"

  /** The fix's name and the title of its task: `Go get '<package>'`. */
  function FixName(packageName: string): (r: string)
    ensures |r| == |packageName| + 9
    ensures r[..8] == "Go get '" && r[|r| - 1] == '\''
    ensures r[8..|r| - 1] == packageName
  {
    "Go get '" + packageName + "'"
  }

  datatype NotificationType = Warning

  datatype Notification = Notification(groupDisplayId: string, title: string, content: string, notificationType: NotificationType)

  /**
   * The body shown on a non-zero exit: the captured lines joined by newlines,
   * without the first line (the echoed command) when there is more than one.
   */
  function FailureMessage(out: seq<string>): string {
    Join(if |out| > 1 then out[1..] else out, "\n")
  }

  /** With a single captured line, the body is that line. */
  lemma FailureMessageOfOneLine(line: string)
    ensures FailureMessage([line]) == line
  {
  }

  /** With no captured output, the body is empty. */
  lemma FailureMessageOfNoLines()
    ensures FailureMessage([]) == ""
  {
  }

  /**
   * With two or more texts, whatever they hold, the first is dropped: the
   * body is the second text, followed by a newline and each later text.
   */
  lemma FailureMessageJoinsAllButFirst(out: seq<string>)
    requires |out| > 1
    ensures FailureMessage(out) == Join(out[1..], "\n")
    ensures |out| == 2 ==> FailureMessage(out) == out[1]
    ensures |out| > 2 ==> FailureMessage(out) == out[1] + "\n" + FailureMessage(out[1..])
  {
  }

  /**
   * With two or more texts, every text after the first is kept, in order:
   * cutting the body at its newlines gives back `out[1..]`, as long as no
   * text holds a newline of its own.
   */
  lemma FailureMessageDropsFirstLine(out: seq<string>)
    requires |out| > 1
    requires forall i | 0 <= i < |out| :: '\n' !in out[i]
    ensures FailureMessage(out) == Join(out[1..], "\n")
    ensures SplitKeepingEmpty(FailureMessage(out), '\n') == out[1..]
  {
    JoinSplitRoundTrip(out[1..], '\n');
  }

  /** The `ProcessAdapter` of the fix: collects the output and reports a failing exit. */
  class OutputListener {
    var out: seq<string>

    constructor ()
      ensures out == []
    {
      out := [];
    }

    /** `onTextAvailable`: every text is appended, none is removed. */
    method OnTextAvailable(text: string)
      modifies this
      ensures out == old(out) + [text]
    {
      out := out + [text];
    }

    /** `processTerminated`: the notification to show, if any. */
    method ProcessTerminated(exitCode: int) returns (notification: Option<Notification>)
      ensures exitCode == 0 <==> notification.None?
      ensures exitCode != 0 ==> notification == Some(Notification(GROUP, TITLE, FailureMessage(out), Warning))
    {
      if exitCode == 0 {
        return None;
      }
      var message := Join(if |out| > 1 then out[1..] else out, "\n");
      notification := Some(Notification(GROUP, TITLE, message, Warning));
    }
  }

  /**
   * What happens when the tool is launched: either the process starts, prints
   * `texts` in this order and exits with `exitCode`, or creating it raises an
   * `ExecutionException` whose message may be null.
   */
  datatype Launch =
    | Started(texts: seq<string>, exitCode: int)
    | CreateFailed(errorMessage: Option<string>)

  /** The visible effects of one run of the task. */
  datatype RunOutcome = RunOutcome(parameters: seq<string>, notifications: seq<Notification>, refreshed: bool)

  /** `StringUtil.notNullize`. */
  function NotNullize(s: Option<string>): (r: string)
    ensures s.Some? ==> r == s.value
    ensures s.None? ==> r == ""
  {
    match s
    case Some(v) => v
    case None => ""
  }

  /**
   * The task's `run`: passes `get <package>` to the tool, feeds its output to
   * a fresh listener, reports a failing exit or a launch error, and always
   * asks for a file-system refresh.
   */
  method Run(packageName: string, launch: Launch) returns (outcome: RunOutcome)
    ensures outcome.parameters == ["get", packageName]
    ensures outcome.refreshed
    ensures launch.Started? && launch.exitCode == 0 ==> outcome.notifications == []
    ensures launch.Started? && launch.exitCode != 0 ==>
      outcome.notifications == [Notification(GROUP, TITLE, FailureMessage(launch.texts), Warning)]
    ensures launch.CreateFailed? ==>
      outcome.notifications == [Notification(GROUP, TITLE, NotNullize(launch.errorMessage), Warning)]
  {
    var parameters := ["get", packageName];
    var notifications: seq<Notification> := [];
    match launch {
      case CreateFailed(errorMessage) =>
        notifications := [Notification(GROUP, TITLE, NotNullize(errorMessage), Warning)];
      case Started(texts, exitCode) =>
        var listener := new OutputListener();
        var i := 0;
        while i < |texts|
          invariant 0 <= i <= |texts|
          invariant listener.out == texts[..i]
        {
          listener.OnTextAvailable(texts[i]);
          i := i + 1;
        }
        assert texts[..|texts|] == texts;
        var notification := listener.ProcessTerminated(exitCode);
        notifications := ToSeq(notification);
    }
    // finally
    outcome := RunOutcome(parameters, notifications, true);
  }

  /** `applyFix`: nothing happens when the file has no SDK path. */
  method ApplyFix(sdkPath: Option<string>, packageName: string, launch: Launch) returns (outcome: Option<RunOutcome>)
    ensures sdkPath.None? <==> outcome.None?
    ensures outcome.Some? ==>
      && outcome.value.parameters == ["get", packageName]
      && outcome.value.refreshed
      && |outcome.value.notifications| <= 1
      && (launch.Started? ==>
            (outcome.value.notifications == [] <==> launch.exitCode == 0))
      && (launch.Started? && launch.exitCode != 0 ==>
            outcome.value.notifications == [Notification(GROUP, TITLE, FailureMessage(launch.texts), Warning)])
      && (launch.CreateFailed? ==>
            outcome.value.notifications == [Notification(GROUP, TITLE, NotNullize(launch.errorMessage), Warning)])
  {
    if sdkPath.None? {
      return None;
    }
    var r := Run(packageName, launch);
    outcome := Some(r);
  }
}
