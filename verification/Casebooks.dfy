/**
 The two status-bearing files of a case (src/storage/local.py, src/storage/base.py).

 A case has a `casebook.json` and a `status.json`. Only the recorded status of each file matters here:
 `None` stands for a missing file, an unreadable one, or one that names no status.
 */
module Casebooks {

  import opened Options

  const TERMINAL_STATUSES: set<string> :=
    {"COMPLETED", "REJECTED", "NEEDS_MANUAL_REVIEW", "FAILED_PERMANENT", "DLQ", "FAILED_TIMEOUT",
     "FAILED_SYNTHESIS_PARSE", "FAILED_SHUTDOWN"}

  const PROTECTED_TERMINAL_STATUSES: set<string> := {"FAILED_TIMEOUT", "DLQ"}

  const IN_PROGRESS := "IN_PROGRESS"
  const LOGS_FETCHED := "LOGS_FETCHED"

  datatype File = CasebookFile | StatusFile

  /** The recorded statuses of one case. */
  datatype Files = Files(casebook: Option<string>, status: Option<string>)

  const NO_FILES := Files(None, None)

  predicate Terminal(recorded: Option<string>) {
    recorded.Some? && recorded.value in TERMINAL_STATUSES
  }

  predicate Protected(recorded: Option<string>) {
    recorded.Some? && recorded.value in PROTECTED_TERMINAL_STATUSES
  }

  function Write(files: Files, file: File, recorded: Option<string>): Files {
    match file
    case CasebookFile => files.(casebook := recorded)
    case StatusFile => files.(status := recorded)
  }

  /** The verdict a reader of both files sees: status.json's if it is terminal, else casebook.json's. */
  function Visible(files: Files): Option<string> {
    if Terminal(files.status) then files.status
    else if Terminal(files.casebook) then files.casebook
    else None
  }

  datatype Saved = Saved(event: string, file: File, recorded: Option<string>)

  class CasebookStorage {
    var casebooks: map<string, Option<string>>
    var statuses: map<string, Option<string>>
    /** Every file replacement so far, in order. Each one is atomic. */
    ghost var history: seq<Saved>

    ghost function Of(event: string): Files
      reads this
    {
      Files(if event in casebooks then casebooks[event] else None,
            if event in statuses then statuses[event] else None)
    }

    constructor ()
      ensures history == [] && forall event :: Of(event) == NO_FILES
    {
      casebooks, statuses, history := map[], map[], [];
    }

    method Save(event: string, recorded: Option<string>, file: File)
      modifies this
      ensures Of(event) == Write(old(Of(event)), file, recorded)
      ensures forall other :: other != event ==> Of(other) == old(Of(other))
      ensures history == old(history) + [Saved(event, file, recorded)]
    {
      match file {
        case CasebookFile => casebooks := casebooks[event := recorded];
        case StatusFile => statuses := statuses[event := recorded];
      }
      history := history + [Saved(event, file, recorded)];
    }

    /** The casebook reaches the disk before the status file does. */
    method SaveTerminal(event: string, recorded: Option<string>)
      modifies this
      ensures Of(event) == Files(recorded, recorded)
      ensures forall other :: other != event ==> Of(other) == old(Of(other))
      ensures history == old(history) + [Saved(event, CasebookFile, recorded), Saved(event, StatusFile, recorded)]
    {
      Save(event, recorded, CasebookFile);
      Save(event, recorded, StatusFile);
    }

    method Load(event: string, file: File) returns (recorded: Option<string>)
      ensures recorded == if file == CasebookFile then Of(event).casebook else Of(event).status
    {
      match file {
        case CasebookFile => recorded := if event in casebooks then casebooks[event] else None;
        case StatusFile => recorded := if event in statuses then statuses[event] else None;
      }
    }

    method TerminalStatus(event: string) returns (r: Option<string>)
      ensures r == Visible(Of(event))
    {
      var order := [StatusFile, CasebookFile];
      for k := 0 to |order|
        invariant k >= 1 ==> !Terminal(Of(event).status)
        invariant k >= 2 ==> !Terminal(Of(event).casebook)
      {
        var recorded := Load(event, order[k]);
        if recorded.Some? && recorded.value in TERMINAL_STATUSES {
          return recorded;
        }
      }
      r := None;
    }
  }

}
