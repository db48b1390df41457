/**
 * The two lists the upload form checks a file against, and the messages it shows when a
 * file fails a check (frontend/src/components/ContractUpload.tsx).
 */
module UploadTypes {
  /** `allowedTypes`: the MIME types accepted whatever the file is called. */
  const AllowedTypes: seq<string> := [
    "application/pdf",
    "text/plain",
    "text/markdown",
    "text/x-markdown",
    "application/markdown",
    "application/msword",
    "application/vnd.openxmlformats-officedocument.wordprocessingml.document"
  ]

  /** `allowedExtensions`, each with its leading dot. */
  const AllowedExtensions: seq<string> := [".pdf", ".doc", ".docx", ".txt", ".md"]

  const TypeMessagePrefix: string := "Please upload a PDF, Word document, Markdown, or text file. Detected: "
  const UnknownType: string := "unknown type"
  const SizeMessage: string := "File size must be less than 10MB."
}
