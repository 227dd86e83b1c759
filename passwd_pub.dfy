/** The password server's public definitions: message opcodes, the error
    codes sent back to clients, the buffer sizes and the two YAML
    enumerations. */
module PasswdPub {
  /** Request opcodes. */
  const PASSWD_MSG_CHG_PASSWORD: int := 1
  const PASSWD_MSG_ADD_USER: int := 2
  const PASSWD_MSG_DEL_USER: int := 3

  /** Error codes. */
  const PASSWD_ERR_FATAL: int := -1
  const PASSWD_ERR_SUCCESS: int := 0
  const PASSWD_ERR_USER_NOT_FOUND: int := 1
  const PASSWD_ERR_PASSWORD_NOT_MATCH: int := 2
  const PASSWD_ERR_SHADOW_FILE: int := 3
  const PASSWD_ERR_INVALID_MSG: int := 4
  const PASSWD_ERR_INSUFFICIENT_MEM: int := 5
  const PASSWD_ERR_RECV_FAILED: int := 6
  const PASSWD_ERR_INVALID_OPCODE: int := 7
  const PASSWD_ERR_INVALID_USER: int := 8
  const PASSWD_ERR_INVALID_PARAM: int := 9
  const PASSWD_ERR_PASSWD_UPD_FAIL: int := 10
  const PASSWD_ERR_SEND_FAILED: int := 11
  const PASSWD_ERR_USERADD_FAILED: int := 12
  const PASSWD_ERR_USER_EXIST: int := 13
  const PASSWD_ERR_USERDEL_FAILED: int := 14
  const PASSWD_ERR_DECRYPT_FAILED: int := 15
  const PASSWD_ERR_YAML_FILE: int := 16

  /** Sizes of the message and YAML entry buffers. */
  const PASSWD_USERNAME_SIZE: nat := 50
  const PASSWD_PASSWORD_SIZE: nat := 50
  const PASSWD_SRV_MAX_STR_SIZE: nat := 255

  /** `enum PASSWD_yaml_path_type_e`. */
  datatype PathType = PathNone | PathSock | PathPubKey

  /** `enum PASSWD_yaml_key_e`. */
  datatype YamlKey = KeyValue | KeyPathType | KeyPath | KeyDesc | KeyMax
}
