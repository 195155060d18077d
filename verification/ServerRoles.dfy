/** The role of a server: none until it is registered. */
module ServerRoles {
  datatype ServerRole = PRIMARY | BACKUP | NONE
}
