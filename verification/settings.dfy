/**
 * `SettingsViewModel` (ui/settings/SettingsViewModel.kt): the list of
 * languages offered for the preference, and the state machine the backup
 * buttons drive. The backup itself is a collaborator here: each export or
 * import call is given whether it completed or failed, and with what message.
 */
module Settings {
  import opened Wrappers
  import opened Entities
  import opened Collections
  import HomeScreen

  /** `availableLanguages`: the lessons' languages, without duplicates, ascending. */
  function AvailableLanguages(lessons: seq<Lesson>): seq<string> {
    HomeScreen.AllLanguages(lessons)
  }

  lemma AvailableLanguagesExact(lessons: seq<Lesson>)
    ensures var r := AvailableLanguages(lessons);
      Sorted(r) && NoDuplicates(r) && forall x :: x in r <==> HomeScreen.IsLessonLanguage(lessons, x)
  {
    HomeScreen.AllLanguagesExact(lessons);
  }

  datatype BackupUiState = Idle | Loading(message: string) | Success(message: string) | Error(message: string)

  /** How a call into the backup manager ended: normally, or with an exception and its message. */
  datatype Outcome = Completed | Failed(localizedMessage: Option<string>)

  /** String interpolation of a nullable message. */
  function MessageText(m: Option<string>): string {
    if m.Some? then m.value else "null"
  }

  const ExportingMessage := "Exporting..."
  const ExportedMessage := "Backup Exported Successfully"
  const ExportFailedPrefix := "Export Failed: "
  const ImportingMessage := "Importing..."
  const ImportedMessage := "Backup Imported Successfully"
  const ImportFailedPrefix := "Import Failed: "

  /** The state an operation ends in, given its outcome. */
  function Finished(outcome: Outcome, done: string, failedPrefix: string): (s: BackupUiState)
    ensures outcome.Completed? ==> s == Success(done)
    ensures outcome.Failed? ==> s.Error? && |failedPrefix| <= |s.message| && s.message[..|failedPrefix|] == failedPrefix
  {
    match outcome
    case Completed => Success(done)
    case Failed(m) => Error(failedPrefix + MessageText(m))
  }

  class SettingsBackup {
    /** `_backupState`. */
    var backupState: BackupUiState
    /** Every value `_backupState` has taken, oldest first. */
    ghost var shown: seq<BackupUiState>

    ghost predicate Valid()
      reads this
    {
      |shown| >= 1 && shown[|shown| - 1] == backupState
    }

    constructor ()
      ensures Valid() && backupState == Idle && shown == [Idle]
    {
      backupState := Idle;
      shown := [Idle];
    }

    /** `exportBackup`: Loading, then Success or Error. */
    method ExportBackup(outcome: Outcome)
      requires Valid()
      modifies this
      ensures Valid()
      ensures backupState == Finished(outcome, ExportedMessage, ExportFailedPrefix)
      ensures shown == old(shown) + [Loading(ExportingMessage), backupState]
    {
      backupState := Loading(ExportingMessage);
      shown := shown + [backupState];
      match outcome {
        case Completed =>
          backupState := Success(ExportedMessage);
        case Failed(m) =>
          backupState := Error(ExportFailedPrefix + MessageText(m));
      }
      shown := shown + [backupState];
    }

    /** `importBackup`: Loading, then Success or Error. */
    method ImportBackup(outcome: Outcome)
      requires Valid()
      modifies this
      ensures Valid()
      ensures backupState == Finished(outcome, ImportedMessage, ImportFailedPrefix)
      ensures shown == old(shown) + [Loading(ImportingMessage), backupState]
    {
      backupState := Loading(ImportingMessage);
      shown := shown + [backupState];
      match outcome {
        case Completed =>
          backupState := Success(ImportedMessage);
        case Failed(m) =>
          backupState := Error(ImportFailedPrefix + MessageText(m));
      }
      shown := shown + [backupState];
    }

    /** `clearBackupState`: back to Idle from any state. */
    method ClearBackupState()
      requires Valid()
      modifies this
      ensures Valid() && backupState == Idle && shown == old(shown) + [Idle]
    {
      backupState := Idle;
      shown := shown + [Idle];
    }
  }

  /** An operation never ends in Loading or Idle: it ends in Success or Error. */
  lemma FinishedSettles(outcome: Outcome, done: string, failedPrefix: string)
    ensures var s := Finished(outcome, done, failedPrefix);
      (s.Success? <==> outcome.Completed?) && (s.Error? <==> outcome.Failed?)
  {
  }

  /** A failure's message is the prefix followed by the exception's message, or "null". */
  lemma FailureMessage(m: Option<string>)
    ensures Finished(Failed(m), ExportedMessage, ExportFailedPrefix).message == ExportFailedPrefix + MessageText(m)
    ensures Finished(Failed(None), ImportedMessage, ImportFailedPrefix).message == "Import Failed: null"
  {
  }
}
