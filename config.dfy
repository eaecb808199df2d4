/** The project metadata read at the start of project creation. Loading it
    (a TOML file or the embedded default) is not modelled: CreateProject
    receives the load's result. */
module Configuration {

  /** The six string fields of the configuration file. */
  datatype Config = Config(
    authors: string,
    cargoPkgVersion: string,
    vendor: string,
    vendorUrl: string,
    vendorEmail: string,
    nihPlugGit: string
  )
}
