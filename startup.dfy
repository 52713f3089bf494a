/**
 * The configuration checks cmd/main.go performs before connecting to the
 * database: an ordered list of tests on the loaded configuration, the first
 * failing one aborting start-up with its message.
 */
module Startup {
  import opened Wrappers

  /** The fields of the configuration the checks read. */
  datatype Config = Config(db: string, port: int, channelName: string, redisHost: string, rabbitMqHost: string)

  const DbMissing := "enter DB conf"
  const PortMissing := "enter PORT conf"
  const ChannelMissing := "enter CHANNEL_NAME conf"
  const QueueMissing := "enter one of the redis or rabbitMQ configurations"
  const QueueAmbiguous := "you can only work on one queue(redis or rabbitMQ) system"

  /** The message start-up panics with, or None when every check passes. */
  function ConfigError(c: Config): (r: Option<string>)
    ensures c.db == "" ==> r == Some(DbMissing)
    ensures c.db != "" && c.port == 0 ==> r == Some(PortMissing)
    ensures c.db != "" && c.port != 0 && c.channelName == "" ==> r == Some(ChannelMissing)
    ensures c.db != "" && c.port != 0 && c.channelName != "" && c.redisHost == "" && c.rabbitMqHost == "" ==>
      r == Some(QueueMissing)
    ensures c.db != "" && c.port != 0 && c.channelName != "" && c.redisHost != "" && c.rabbitMqHost != "" ==>
      r == Some(QueueAmbiguous)
  {
    if c.db == "" then Some(DbMissing)
    else if c.port == 0 then Some(PortMissing)
    else if c.channelName == "" then Some(ChannelMissing)
    else if c.redisHost == "" && c.rabbitMqHost == "" then Some(QueueMissing)
    else if c.redisHost != "" && c.rabbitMqHost != "" then Some(QueueAmbiguous)
    else None
  }

  /** The configurations start-up accepts: all required fields set and exactly one queue host. */
  predicate Acceptable(c: Config)
  {
    c.db != "" && c.port != 0 && c.channelName != "" && ((c.redisHost == "") != (c.rabbitMqHost == ""))
  }

  /** A configuration passes the checks exactly when it is acceptable. */
  lemma ConfigPassesIffAcceptable(c: Config)
    ensures ConfigError(c).None? <==> Acceptable(c)
  {
  }

  /** Every failure carries one of the five messages. */
  lemma ConfigErrorMessages(c: Config)
    ensures ConfigError(c).Some? ==>
      ConfigError(c).value in {DbMissing, PortMissing, ChannelMissing, QueueMissing, QueueAmbiguous}
  {
  }
}
