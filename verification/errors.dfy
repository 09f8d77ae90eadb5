/**
  The failures the tool reports. Each one aborts the operation that met it;
  none is retried.
 */
module Errors {

  datatype Error =
    /** A catalog file exists but cannot be read or decoded. */
    | CatalogUnreadable(file: string)
    /** An add operation found an entry with the same name. */
    | DuplicateEntry(name: string)
    /** The templates directory cannot be listed. */
    | TemplateDirUnreadable
    /** A template file in the templates directory cannot be read or decoded. */
    | TemplateUnreadable(fileName: string)
    /** A source file or directory to be captured cannot be read. */
    | SourceUnreadable(path: string)
    /** The directory walk reported an error for this path. */
    | WalkFailed(path: string)
    /** A file could not be written. */
    | WriteFailed(path: string)
    /** A file could not be removed: it is not there. */
    | RemoveFailed(path: string)
    /** The PWD environment variable is empty. */
    | NoWorkingDirectory
    /** Changing the working directory failed. */
    | ChangeDirFailed(dir: string)
    /** `flutter create` exited with a failure. */
    | GenerationFailed(projectName: string)
    /** `flutter pub add` exited with a failure. */
    | InstallFailed(packageName: string)
}
