/** An external command the scripts hand to `subprocess.call`, with the file it writes. */
module Jobs {
  datatype Job = Job(outpath: string, commands: seq<string>)
}
