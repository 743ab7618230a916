/** The sizes of src/common/constants.h and src/server/constants.h. */
module Constants {
  const MAX_SESSION_COUNT: nat := 8
  const MAX_PIPE_PATH_LENGTH: nat := 40
  const MAX_STRING_SIZE: nat := 40
  const MAX_NUMBER_SUB: nat := 10
  const MAX_WRITE_SIZE: nat := 256
  const MAX_WRITE_SIZE_RESPONSE: nat := 301
  const MAX_KEYS_COUNT: nat := 8191
}
