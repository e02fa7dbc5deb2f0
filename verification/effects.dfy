/** What the task procedures hand to the outside world: shell commands and procedure calls. */
module Effects {
  import opened PackageStore

  /** A subprocess started in directory `dir` with argument vector `argv`. */
  datatype Command = Command(dir: string, argv: seq<string>)

  /** A call of the procedure named `procedure` of a task class, given the package view `package`. */
  datatype Invocation = Invocation(procedure: string, package: PackageInfo)
}
