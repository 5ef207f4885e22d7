/** The values the build tool binds to the goal's parameters, already resolved.
    Parameters without a default may be null (`None`). */
module Parameters {
  import opened Wrappers

  datatype Config = Config(
    outputDir: string,
    /** `Paths.get(outputDir).toAbsolutePath().toString()`, computed by the host. */
    absoluteOutputDir: string,
    logPath: string,
    jarOutputDir: string,
    serviceId: string,
    projectName: Option<string>,
    serviceName: Option<string>,
    serviceDescription: Option<string>,
    winswVersion: string,
    javaPath: Option<string>,
    additionalJvmOptions: Option<string>,
    additionalAppArgs: Option<string>,
    additionalDirectories: Option<seq<string>>,
    jarPath: string,
    /** `project.getBasedir().getAbsolutePath()`. */
    projectBaseDir: string)
}
