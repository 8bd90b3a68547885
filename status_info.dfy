/** `getStatusInfo`: the label, colour and icon a file transfer shows for its
    status. The relative time text (`formatDate` of the last status change)
    is a parameter; the status is the transfer's status string, so a value
    outside the listed ones reaches the default branch. */
module StatusInfo {
  import opened Common

  /** The one icon the labels use (`CheckCheckIcon`). */
  datatype Icon = CheckCheck

  datatype StatusInfo = StatusInfo(text: string, color: string, icon: Option<Icon>)

  const Muted := "fg.muted"
  const Green := "green.solid"

  /** The statuses of a transfer still under way, and their labels. */
  const InProgress: set<string> := {"queued", "sending", "receiving"}
  /** The statuses of a finished transfer, each shown with the check icon. */
  const Finished: set<string> := {"sent", "received", "downloaded-by-peer", "downloaded-by-you"}
  const Downloaded: set<string> := {"downloaded-by-peer", "downloaded-by-you"}

  function GetStatusInfo(status: string, isOwn: bool, timeText: string): (r: StatusInfo)
    ensures r.color in {Green, Muted}
    ensures status in InProgress ==> r.icon.None? && r.color == Muted && |r.text| >= 3 && r.text[|r.text| - 3..] == "..."
  {
    var direction := if isOwn then "Sent" else "Received";
    match status
    case "queued" => StatusInfo("Queued...", Muted, None)
    case "sending" => StatusInfo("Sending...", Muted, None)
    case "sent" => StatusInfo("Sent " + timeText, Muted, Some(CheckCheck))
    case "receiving" => StatusInfo("Receiving...", Muted, None)
    case "received" => StatusInfo("Received " + timeText, Muted, Some(CheckCheck))
    case "downloaded-by-peer" => StatusInfo("Downloaded " + timeText, Green, Some(CheckCheck))
    case "downloaded-by-you" => StatusInfo("Downloaded " + timeText, Green, Some(CheckCheck))
    case _ => StatusInfo(direction + " " + timeText, Muted, None)
  }

  /** Only the two downloaded statuses are green; every other is muted. */
  lemma GreenExactlyWhenDownloaded(status: string, isOwn: bool, timeText: string)
    ensures GetStatusInfo(status, isOwn, timeText).color == Green <==> status in Downloaded
  {
  }

  /** The check icon marks exactly the finished statuses. */
  lemma IconExactlyWhenFinished(status: string, isOwn: bool, timeText: string)
    ensures GetStatusInfo(status, isOwn, timeText).icon.Some? <==> status in Finished
  {
  }

  /** A transfer under way shows its own fixed label, whatever the time and
      the direction. */
  lemma InProgressIgnoresTime(status: string, isOwn: bool, isOwn2: bool, timeText: string, timeText2: string)
    requires status in InProgress
    ensures GetStatusInfo(status, isOwn, timeText) == GetStatusInfo(status, isOwn2, timeText2)
    ensures GetStatusInfo(status, isOwn, timeText).text ==
      if status == "queued" then "Queued..." else if status == "sending" then "Sending..." else "Receiving..."
  {
  }

  /** Any other status ends its label with a space and the time text, after
      the word its own case gives: "Downloaded" for both downloaded statuses,
      "Sent" for "sent", "Received" for "received", and the direction for an
      unlisted status. */
  lemma SettledLabelsEndWithTime(status: string, isOwn: bool, timeText: string)
    requires status !in InProgress
    ensures var t := GetStatusInfo(status, isOwn, timeText).text;
      && |t| > |timeText|
      && t[|t| - |timeText|..] == timeText
      && t[..|t| - |timeText|] ==
        if status in Downloaded then "Downloaded "
        else if status == "sent" || (status !in Finished && isOwn) then "Sent "
        else "Received "
  {
    var t := GetStatusInfo(status, isOwn, timeText).text;
    var word := if status == "sent" || (status !in Finished && isOwn) then "Sent "
      else if status in Downloaded then "Downloaded " else "Received ";
    assert t == word + timeText;
    assert t[..|word|] == word;
  }

  /** The direction matters only for an unlisted status, which reads as
      "Sent" or "Received" like the finished ones but carries no icon. */
  lemma DirectionOnlyForUnlisted(status: string, timeText: string)
    ensures GetStatusInfo(status, true, timeText) != GetStatusInfo(status, false, timeText) <==>
      status !in InProgress + Finished
    ensures status !in InProgress + Finished ==>
      GetStatusInfo(status, true, timeText).text == GetStatusInfo("sent", true, timeText).text &&
      GetStatusInfo(status, false, timeText).text == GetStatusInfo("received", false, timeText).text &&
      GetStatusInfo(status, true, timeText).icon.None?
  {
    if status !in InProgress + Finished {
      assert GetStatusInfo(status, true, timeText).text[0] == 'S';
      assert GetStatusInfo(status, false, timeText).text[0] == 'R';
    }
  }
}
