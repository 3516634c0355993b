/**
 * The error diagnostics the pipeline resource and data source add, one
 * constructor per distinct summary and detail pair (the data source's config
 * and extraction errors reuse the resource's), with the texts each formats. Handlers answer with these structured values; `ToDiagnostic`
 * renders one as the framework sees it.
 */
module Diagnostics {
  import opened Framework
  import ConfigXml

  datatype Problem =
    // resource Create (resource_jenkins_pipeline.go:183-213)
    | ExistsCheckFailed(jobName: string, err: string)
    | AlreadyExists(jobName: string)
    | CreationFailed(jobName: string, err: string)
    | CreatedReadFailed(jobName: string, err: string)
    // resource Read (resource_jenkins_pipeline.go:247-287)
    | ReadExistsCheckFailed(jobName: string, err: string)
    | ConfigReadFailed(jobName: string, err: string)
    | ScriptExtractionFailed(jobName: string, parseError: ConfigXml.ParseError)
    | DescriptionExtractionFailed(jobName: string, parseError: ConfigXml.ParseError)
    // resource Update (resource_jenkins_pipeline.go:325-338)
    | UpdateFailed(jobName: string, err: string)
    | UpdatedReadFailed(jobName: string, err: string)
    // resource Delete (resource_jenkins_pipeline.go:368-385)
    | DeleteExistsCheckFailed(jobName: string, err: string)
    | DeletionFailed(jobName: string, err: string)
    // data source Read (datasource_jenkins_pipeline.go:114-134)
    | MissingIdentifier
    | JobNotFound(jobName: string, err: string)
    | JobReadFailed(jobName: string, err: string)
  {
    function Summary(): string {
      match this
      case ExistsCheckFailed(_, _) => "Client Error"
      case AlreadyExists(_) => "Job Already Exists"
      case CreationFailed(_, _) => "Jenkins Job Creation Error"
      case CreatedReadFailed(_, _) => "Jenkins Job Read Error"
      case ReadExistsCheckFailed(_, _) => "Client Error"
      case ConfigReadFailed(_, _) => "Jenkins Job Config Read Error"
      case ScriptExtractionFailed(_, _) => "Groovy Script Extraction Error"
      case DescriptionExtractionFailed(_, _) => "Description Extraction Error"
      case UpdateFailed(_, _) => "Jenkins Job Update Error"
      case UpdatedReadFailed(_, _) => "Jenkins Job Read Error After Update"
      case DeleteExistsCheckFailed(_, _) => "Client Error"
      case DeletionFailed(_, _) => "Jenkins Job Deletion Error"
      case MissingIdentifier => "Missing Identifier"
      case JobNotFound(_, _) => "Jenkins Job Not Found"
      case JobReadFailed(_, _) => "Jenkins Job Read Error"
    }

    function Detail(): string {
      match this
      case ExistsCheckFailed(j, e) => "Failed to check if job '" + j + "' exists: " + e
      case AlreadyExists(j) =>
        "Jenkins job '" + j + "' already exists. Consider importing it or using a different name."
      case CreationFailed(j, e) => "Failed to create Jenkins Pipeline job '" + j + "': " + e
      case CreatedReadFailed(j, e) => "Failed to read created Jenkins Pipeline job '" + j + "': " + e
      case ReadExistsCheckFailed(j, e) => "Failed to check if job '" + j + "' exists during read: " + e
      case ConfigReadFailed(j, e) => "Failed to read Jenkins Pipeline job config for '" + j + "': " + e
      case ScriptExtractionFailed(j, p) =>
        "Failed to extract Groovy script from job '" + j + "' config: " + p.Message()
      case DescriptionExtractionFailed(j, p) =>
        "Failed to extract description from job '" + j + "' config: " + p.Message()
      case UpdateFailed(j, e) => "Failed to update Jenkins Pipeline job '" + j + "': " + e
      case UpdatedReadFailed(j, e) => "Failed to read updated Jenkins Pipeline job '" + j + "': " + e
      case DeleteExistsCheckFailed(j, e) => "Failed to check if job '" + j + "' exists before deletion: " + e
      case DeletionFailed(j, e) => "Failed to delete Jenkins Pipeline job '" + j + "': " + e
      case MissingIdentifier => "One of 'id' or 'name' must be provided to read the Jenkins Pipeline data source."
      case JobNotFound(j, e) => "No Jenkins Pipeline job found with name/ID: '" + j + "'. Error: " + e
      case JobReadFailed(j, e) => "Failed to get Jenkins job details for '" + j + "': " + e
    }

    /** The diagnostic as `AddError(Summary(), Detail())` appends it. */
    function ToDiagnostic(): Diagnostic {
      Error(Summary(), Detail())
    }
  }
}
