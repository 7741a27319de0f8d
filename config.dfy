// The alias record of the configuration file: a named storage location,
// either a local directory or an S3 bucket.

module Config {
  /** The two alias types the server knows. */
  const LocalType: string := "local"
  const S3Type: string := "s3"

  /** One configured alias. For an S3 alias `path` is the key prefix inside
      the bucket. */
  datatype Alias = Alias(
    name: string,
    kind: string,
    path: string,
    bucket: string,
    endpoint: string,
    region: string,
    accessKey: string,
    secretKey: string)
}
