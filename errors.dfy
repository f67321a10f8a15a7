/** Every error a command can bubble up to the top level, which prints it and exits with status 1. */
module Errors {
  import opened Paths

  datatype Error =
    | NoHomeDirectory                   // the user's home directory cannot be determined
    | NotADirectory(path: Path)         // directory creation met something that is not a directory
    | CannotWrite(path: Path)           // a file could not be created or overwritten
    | CannotRead(path: Path)            // a file or directory could not be read
    | CannotRemove(path: Path)          // the system refused to remove the directory itself
    | MalformedConfig(path: Path)       // the configuration file does not decode
    | EntryFailed(path: Path)           // a directory listing yielded an error item
    | MetadataFailed(path: Path)        // the metadata of a listed entry could not be read
    | ModelNotFound(name: string)       // the name is not one of the known models
    | ModelFileNotFound(file: string)   // the artifact for that quantization is not on disk
    | UnknownRuntime(name: string)      // the runtime selector is not recognised
    | SpawnFailed(program: string)      // the child process could not be started
    | ChildFailed(program: string)      // the child process exited unsuccessfully
    | RequestFailed(url: string)        // the HTTP request could not be sent
    | HttpStatus(code: nat)             // the hub answered with a non-success status
    | NoContentLength                   // the hub's answer declares no length
    | StreamFailed                      // the body stream broke off
    | InstallationFailed                // the package manager exited unsuccessfully
}
