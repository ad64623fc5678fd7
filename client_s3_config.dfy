/** The S3 settings of the browser bundle (`import.meta.env`), read from the VITE_AWS_* variables. */
module ClientS3Config {
  import opened S3Settings

  const RegionVar := "VITE_AWS_REGION"
  const BucketVar := "VITE_AWS_BUCKET_NAME"
  const KeyIdVar := "VITE_AWS_ACCESS_KEY_ID"
  const SecretVar := "VITE_AWS_SECRET_ACCESS_KEY"

  /** `s3Config`: each variable, or its default when it is unset or empty. */
  function Config(env: Env): (c: S3Config)
    ensures c.region == if IsSet(env, RegionVar) then env[RegionVar] else "us-east-1"
    ensures c.bucketName == if IsSet(env, BucketVar) then env[BucketVar] else ""
    ensures c.accessKeyId == if IsSet(env, KeyIdVar) then env[KeyIdVar] else ""
    ensures c.secretAccessKey == if IsSet(env, SecretVar) then env[SecretVar] else ""
  {
    S3Config(EnvOr(env, RegionVar, "us-east-1"), EnvOr(env, BucketVar, ""),
      EnvOr(env, KeyIdVar, ""), EnvOr(env, SecretVar, ""))
  }

  /** `isS3Configured()` for this environment: the three required variables are all set. */
  function IsS3Configured(env: Env): (b: bool)
    ensures b <==> IsSet(env, BucketVar) && IsSet(env, KeyIdVar) && IsSet(env, SecretVar)
  {
    IsConfigured(Config(env))
  }

  /** The region plays no part in the decision. */
  lemma RegionIrrelevant(env: Env, region: string)
    ensures IsS3Configured(env[RegionVar := region]) == IsS3Configured(env)
    ensures IsS3Configured(env - {RegionVar}) == IsS3Configured(env)
  {
    var e1, e2 := env[RegionVar := region], env - {RegionVar};
    assert forall n :: n != RegionVar ==> (IsSet(e1, n) <==> IsSet(env, n));
    assert forall n :: n != RegionVar ==> (IsSet(e2, n) <==> IsSet(env, n));
  }

  /** With nothing in the environment the region is us-east-1, the rest empty, and S3 is off. */
  lemma EmptyEnvDefaults()
    ensures Config(map[]) == S3Config("us-east-1", "", "", "")
    ensures !IsS3Configured(map[])
  {
  }

  /** Emptying or removing any one of the three required variables turns S3 off. */
  lemma RequiredVariable(env: Env, name: string)
    requires name == BucketVar || name == KeyIdVar || name == SecretVar
    ensures !IsS3Configured(env[name := ""])
    ensures !IsS3Configured(env - {name})
  {
    assert !IsSet(env[name := ""], name) && !IsSet(env - {name}, name);
  }
}
