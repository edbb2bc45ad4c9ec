/** `validate_settings` of templates/python/src/config.py, with the secret key passed in. */
module Settings {
  import opened Base
  import opened Strings

  const MissingKeyMessage: string := "SECRET_KEY가 설정되지 않았습니다"
  const DefaultKeyMessage: string := "SECRET_KEY를 기본값에서 변경해주세요"
  const PlaceholderKey: string := "change-me-in-production"

  /** The text of the ValueError for the collected messages. */
  function ErrorText(errors: seq<string>): string
  {
    "설정 오류: " + Join(", ", errors)
  }

  /**
   * Collects one message per failed check and raises when any was collected. An empty key
   * and the placeholder key each fail exactly one check; every other key passes.
   */
  method ValidateSettings(secretKey: string) returns (r: Result<(), string>)
    ensures r.Failure? <==> secretKey == "" || secretKey == PlaceholderKey
    ensures secretKey == "" ==> r == Failure("설정 오류: " + MissingKeyMessage)
    ensures secretKey == PlaceholderKey ==> r == Failure("설정 오류: " + DefaultKeyMessage)
  {
    var errors: seq<string> := [];
    if secretKey == "" {
      errors := errors + [MissingKeyMessage];
    }
    if secretKey == PlaceholderKey {
      errors := errors + [DefaultKeyMessage];
    }
    if errors != [] {
      assert |errors| == 1 && Join(", ", errors) == errors[0];
      r := Failure(ErrorText(errors));
    } else {
      r := Success(());
    }
  }
}
