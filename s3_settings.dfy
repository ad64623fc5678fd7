/**
 * The S3 settings object both the browser client and the server build from their environment, and
 * the `isS3Configured` test they share.
 */
module S3Settings {

  /** `s3Config`: the region, the bucket and the two credentials. */
  datatype S3Config = S3Config(region: string, bucketName: string, accessKeyId: string, secretAccessKey: string)

  /** The environment variables that are defined, with their values. */
  type Env = map<string, string>

  /** The variable is defined and not empty, i.e. truthy. */
  predicate IsSet(env: Env, name: string) {
    name in env && env[name] != ""
  }

  /** `env.NAME || fallback`. */
  function EnvOr(env: Env, name: string, fallback: string): (v: string)
    ensures IsSet(env, name) ==> v == env[name]
    ensures !IsSet(env, name) ==> v == fallback
  {
    if name in env && env[name] != "" then env[name] else fallback
  }

  /** `isS3Configured()`: bucket name, access key id and secret key all truthy. */
  predicate IsConfigured(c: S3Config) {
    c.bucketName != "" && c.accessKeyId != "" && c.secretAccessKey != ""
  }
}
